/**
 What the account repository answers to each request, condition by condition, what
 an accepted one leaves behind, and on whose authority an account changes.
 */
module AuthAnswers {
  import opened Options
  import opened AuthStore

  // ------------------------------------------------------------ who may ask

  /** The actor exists, is enabled and current, may act at all, and has the role that is asked for. */
  ghost predicate MayAct(r: Repository, a: Authorization) {
    a.account in r.accounts &&
    var actor := r.accounts[a.account];
    && actor.enabled && actor.authVersion == a.authVersion
    && (actor.mustChangePassword ==> a.allowPasswordChangeRequired)
    && (forall role: Role :: a.requiredRole == Some(role) ==> role in actor.roles)
  }

  /** An account request is refused for want of authorization if and only if its actor may not act. */
  lemma AuthorizationIsExact(r: Repository, op: Operation, audit: AuditLimits)
    requires op.Create? || op.Mutate?
    ensures Perform(r, op, audit).answer.NotAuthorized? <==> !MayAct(r, op.authorization)
  {
    assert Authorized(r, op.authorization) <==> MayAct(r, op.authorization);
  }

  /** So every accepted one comes from an enabled account that is current and has the role asked for. */
  lemma AcceptedHasTheRole(r: Repository, op: Operation, audit: AuditLimits)
    requires (op.Create? || op.Mutate?) && Perform(r, op, audit).answer.Accepted?
    ensures MayAct(r, op.authorization)
    ensures op.authorization.requiredRole == Some(Admin) ==> Administers(r.accounts[op.authorization.account])
  {
    AuthorizationIsExact(r, op, audit);
  }

  // ---------------------------------------------------------------- answers

  ghost predicate Collides(r: Repository, id: AccountId, username: int) {
    id in r.accounts || exists other | other in r.accounts :: r.accounts[other].username == username
  }

  /** The audit log keeps its reserve, and takes an event once. */
  ghost predicate AuditTakes(r: Repository, event: int, audit: AuditLimits) {
    |r.audit| + audit.operationalReserve < audit.global && event !in r.audit
  }

  ghost predicate AuditAnswer(r: Repository, event: int, audit: AuditLimits, answer: Answer) {
    && (answer.AuditFull? <==> |r.audit| + audit.operationalReserve >= audit.global)
    && (answer.AuditRepeated? <==> |r.audit| + audit.operationalReserve < audit.global && event in r.audit)
    && (answer.Accepted? <==> AuditTakes(r, event, audit))
  }

  /** A new account, the first or a later one, is accepted exactly under a free id and name with room in the log. */
  lemma CreateAnswers(r: Repository, op: Operation, audit: AuditLimits)
    requires op.Create? || op.CreateFirst?
    ensures var result := Perform(r, op, audit);
            var may := if op.Create? then MayAct(r, op.authorization) else r.accounts == map[];
            && (!may <==> result.answer == if op.Create? then NotAuthorized else NotFirst)
            && (result.answer.AlreadyExists? <==> may && Collides(r, op.id, op.account.username))
            && (may && !Collides(r, op.id, op.account.username) ==> AuditAnswer(r, op.event, audit, result.answer))
            && result.repository
               == if result.answer.Accepted?
                  then r.(accounts := r.accounts[op.id := op.account], audit := r.audit + [op.event]) else r
  {
    if op.Create? {
      AuthorizationIsExact(r, op, audit);
    }
  }

  /** The change would take the last enabled administrator away. */
  ghost predicate RemovesLast(r: Repository, id: AccountId, change: Change) {
    && id in r.accounts && r.accounts[id].enabled && Admin in r.accounts[id].roles
    && (change.SetEnabled? || change.SetRoles?)
    && (change.SetEnabled? ==> !change.enabled) && (change.SetRoles? ==> Admin !in change.roles)
    && forall other | other in r.accounts && other != id ::
         !(r.accounts[other].enabled && Admin in r.accounts[other].roles)
  }

  lemma EndsExactlyWhenLast(r: Repository, id: AccountId, change: Change)
    requires id in r.accounts
    ensures EndsAdministration(r, r.accounts[id], change) <==> RemovesLast(r, id, change)
  {
    if Administers(r.accounts[id]) {
      if |Administrators(r.accounts)| <= 1 {
        SoleAdministrator(r.accounts, id);
      } else {
        AdministratorIsCounted(r.accounts, id);
      }
    }
  }

  ghost predicate Conflicts(r: Repository, id: AccountId, change: Change)
    requires id in r.accounts
  {
    change.ReplacePassword? && change.expectedAuthVersion != r.accounts[id].authVersion
  }

  /** The answers to a change of an account, in their order of precedence. */
  lemma MutationAnswers(r: Repository, op: Operation, audit: AuditLimits)
    requires op.Mutate?
    ensures var answer := Perform(r, op, audit).answer;
            var may, known := MayAct(r, op.authorization), op.id in r.accounts;
            && (answer.NotAuthorized? <==> !may)
            && (answer.NotFound? <==> may && !known)
            && (answer.LastAdministrator? <==> may && RemovesLast(r, op.id, op.change))
            && (answer.Conflict? <==>
                  may && known && !RemovesLast(r, op.id, op.change) && Conflicts(r, op.id, op.change))
            && (may && known && !RemovesLast(r, op.id, op.change) && !Conflicts(r, op.id, op.change) ==>
                  AuditAnswer(r, op.event, audit, answer))
            && (!answer.Accepted? ==> Perform(r, op, audit).repository == r)
  {
    AuthorizationIsExact(r, op, audit);
    if op.id in r.accounts {
      EndsExactlyWhenLast(r, op.id, op.change);
    }
  }

  // ---------------------------------------------------------------- effects

  /** What the change says is stored, under the next version; whatever it does not name stays. */
  ghost predicate Stores(account: Account, change: Change, next: Account) {
    && next.username == account.username && next.authVersion == account.authVersion + 1
    && next.enabled == (if change.SetEnabled? then change.enabled else account.enabled)
    && next.roles == (if change.SetRoles? then change.roles else account.roles)
    && next.passwordHash == (if change.ReplacePassword? then change.passwordHash else account.passwordHash)
    && next.mustChangePassword
       == (if change.ReplacePassword? then change.mustChangePassword else account.mustChangePassword)
  }

  /** An accepted change stores what it says, logs its event, and takes every artifact of the account and no other. */
  lemma AcceptedMutation(r: Repository, op: Operation, audit: AuditLimits)
    requires op.Mutate? && Perform(r, op, audit).answer.Accepted?
    ensures var next := Perform(r, op, audit).repository;
            && op.id in r.accounts && next.accounts.Keys == r.accounts.Keys
            && Stores(r.accounts[op.id], op.change, next.accounts[op.id])
            && (forall other | other in r.accounts && other != op.id :: next.accounts[other] == r.accounts[other])
            && next.audit == r.audit + [op.event]
            && forall kind: Kind, key: Key ::
                 && (key in ShelfOf(next, kind)
                     <==> key in ShelfOf(r, kind) && ShelfOf(r, kind)[key].account != op.id)
                 && (key in ShelfOf(next, kind) ==> ShelfOf(next, kind)[key] == ShelfOf(r, kind)[key])
  {
  }

  // --------------------------------------------------------------- artifacts

  ghost predicate IssuedTo(r: Repository, artifact: Artifact) {
    artifact.account in r.accounts &&
    var owner := r.accounts[artifact.account];
    owner.enabled && owner.authVersion == artifact.authVersion
  }

  /** The keys other than its own that a new artifact has to share the shelf with: those that have not expired. */
  ghost function Neighbours(shelf: Shelf, key: Key, now: int): set<Key> {
    set other | other in shelf && other != key && shelf[other].expiresAt > now
  }

  ghost function Siblings(shelf: Shelf, key: Key, account: AccountId, now: int): set<Key> {
    set other | other in shelf && other != key && shelf[other].expiresAt > now && shelf[other].account == account
  }

  lemma KeysAreNeighbours(shelf: Shelf, key: Key, account: AccountId, now: int)
    ensures Unexpired(shelf, now).Keys - {key} == Neighbours(shelf, key, now)
    ensures OwnedKeys(Unexpired(shelf, now), account) - {key} == Siblings(shelf, key, account, now)
  {
  }

  /** An artifact is stored exactly for a current, enabled account and below both quotas; the expired ones go. */
  lemma SaveAnswers(r: Repository, op: Operation, audit: AuditLimits)
    requires op.Save?
    ensures var result := Perform(r, op, audit);
            var shelf := ShelfOf(r, op.kind);
            && (result.answer.Accepted? <==>
                  && IssuedTo(r, op.artifact)
                  && |Neighbours(shelf, op.key, op.now)| < op.limits.global
                  && |Siblings(shelf, op.key, op.artifact.account, op.now)| < op.limits.perAccount)
            && (result.answer.Accepted? || result.answer.NotSaved?)
            && (!IssuedTo(r, op.artifact) ==> result.repository == r)
            && (IssuedTo(r, op.artifact) ==>
                  && (forall other: Kind | other != op.kind :: ShelfOf(result.repository, other) == ShelfOf(r, other))
                  && forall key: Key ::
                       var next := ShelfOf(result.repository, op.kind);
                       var own := result.answer.Accepted? && key == op.key;
                       && (key in next <==> own || (key in shelf && shelf[key].expiresAt > op.now))
                       && (key in next ==> next[key] == if own then op.artifact else shelf[key]))
  {
    KeysAreNeighbours(ShelfOf(r, op.kind), op.key, op.artifact.account, op.now);
    assert Current(r, op.artifact) <==> IssuedTo(r, op.artifact);
  }

  /** An artifact is handed out exactly with its proof and in time, and then it is gone; nothing else changes. */
  lemma ConsumeAnswers(r: Repository, op: Operation, audit: AuditLimits)
    requires op.Consume?
    ensures var result := Perform(r, op, audit);
            var shelf := ShelfOf(r, op.kind);
            var fits := op.key in shelf && shelf[op.key].proof == op.proof && op.now < shelf[op.key].expiresAt;
            && result.answer == (if fits then Consumed(shelf[op.key]) else Nothing)
            && (!fits ==> result.repository == r)
            && (fits ==>
                  && ShelfOf(result.repository, op.kind) == shelf - {op.key}
                  && (forall other: Kind | other != op.kind :: ShelfOf(result.repository, other) == ShelfOf(r, other))
                  && result.repository.accounts == r.accounts && result.repository.audit == r.audit)
  {
  }

  // -------------------------------------------------------------- whole runs

  /** The k-th request of the run changed the account, and its actor was entitled to. */
  ghost predicate ChangedBy(r: Repository, ops: seq<Operation>, k: nat, audit: AuditLimits, id: AccountId)
    requires k < |ops|
  {
    var before := Run(r, ops[..k], audit);
    && ops[k].Mutate? && ops[k].id == id && Perform(before, ops[k], audit).answer.Accepted?
    && MayAct(before, ops[k].authorization)
  }

  lemma StepChanges(r: Repository, op: Operation, audit: AuditLimits, id: AccountId)
    requires id in r.accounts
    ensures var result := Perform(r, op, audit);
            && id in result.repository.accounts
            && (result.repository.accounts[id] != r.accounts[id] ==>
                  op.Mutate? && op.id == id && result.answer.Accepted? && MayAct(r, op.authorization))
  {
    if op.Mutate? {
      MutationAnswers(r, op, audit);
      if Perform(r, op, audit).answer.Accepted? {
        AcceptedMutation(r, op, audit);
      }
    } else {
      OthersKeepAccounts(r, op, audit, id);
    }
  }

  lemma {:induction false} RunOfAppend(r: Repository, ops: seq<Operation>, op: Operation, audit: AuditLimits)
    ensures Run(r, ops + [op], audit) == Perform(Run(r, ops, audit), op, audit).repository
    decreases |ops|
  {
    if ops == [] {
      assert [op][1..] == [] && ops + [op] == [op];
    } else {
      assert (ops + [op])[1..] == ops[1..] + [op];
      RunOfAppend(Perform(r, ops[0], audit).repository, ops[1..], op, audit);
    }
  }

  lemma ChangedEarlier(
    r: Repository, ops: seq<Operation>, last: Operation, k: nat, audit: AuditLimits, id: AccountId)
    requires k < |ops| && ChangedBy(r, ops, k, audit, id)
    ensures ChangedBy(r, ops + [last], k, audit, id)
  {
    assert (ops + [last])[..k] == ops[..k] && (ops + [last])[k] == ops[k];
  }

  /**
   Over any run an account that is not what it was, was changed by a request that
   was accepted, on the authority of an account that was enabled, current and had
   the role required at that moment.
   */
  lemma {:induction false} EveryChangeIsAuthorized(
    r: Repository, ops: seq<Operation>, audit: AuditLimits, id: AccountId)
    requires id in r.accounts
    ensures var end := Run(r, ops, audit);
            && id in end.accounts
            && (end.accounts[id] != r.accounts[id] ==> exists k | 0 <= k < |ops| :: ChangedBy(r, ops, k, audit, id))
    decreases |ops|
  {
    if ops != [] {
      var earlier, op := ops[..|ops| - 1], ops[|ops| - 1];
      assert ops == earlier + [op];
      RunOfAppend(r, earlier, op, audit);
      EveryChangeIsAuthorized(r, earlier, audit, id);
      var before := Run(r, earlier, audit);
      StepChanges(before, op, audit, id);
      if Run(r, ops, audit).accounts[id] != before.accounts[id] {
        assert ops[..|ops| - 1] == earlier && ChangedBy(r, ops, |ops| - 1, audit, id);
      } else if before.accounts[id] != r.accounts[id] {
        var k :| 0 <= k < |earlier| && ChangedBy(r, earlier, k, audit, id);
        ChangedEarlier(r, earlier, op, k, audit, id);
      }
    }
  }
}
