/**
 The review repository: comment threads with optimistic versions, a workflow
 history, numbered pins and an event for every change.
 */
module ReviewStore {
  import opened Options
  import opened ReviewFeed

  type ReplyId(==, !new)
  type Text(==, !new)

  datatype Status = Open | NeedsReview | Resolved

  datatype Entry = Entry(version: int, from: Status, to: Status, actor: AccountId, changedAt: int)

  datatype Deletion = Deletion(actor: AccountId, deletedAt: int)

  datatype Reply = Reply(id: ReplyId, body: Option<Text>, version: int, author: AccountId, deleted: Option<Deletion>)

  datatype Thread = Thread(
    revision: Revision, route: Route, region: bool, pin: Option<int>, author: AccountId,
    body: Option<Text>, version: int, deleted: Option<Deletion>,
    status: Status, workflowVersion: Option<int>, history: seq<Entry>,
    resolvedBy: Option<AccountId>, resolvedAt: Option<int>,
    replies: seq<Reply>)

  datatype Place = Place(revision: Revision, route: Route)

  datatype Store = Store(threads: map<ThreadId, Thread>, pinCounters: map<Place, int>, events: seq<Event>)

  /** Who asks, for what; access is what the tunnel binding or project grants. */
  datatype Request = Request(access: bool, thread: ThreadId, place: Place, actor: AccountId, canManage: bool, now: int)

  datatype Change =
    | AddReply(id: ReplyId, body: Text)
    | SetStatus(expectedStatus: Status, expectedWorkflowVersion: int, status: Status)
    | EditComment(text: Text, expectedVersion: int)
    | DeleteComment(expectedVersion: int)
    | EditReply(reply: ReplyId, text: Text, expectedVersion: int)
    | DeleteReply(reply: ReplyId, expectedVersion: int)
    | ReadNotification

  /** The notices are the accounts that the change notifies, by mention, reply or workflow request. */
  datatype Operation =
    | CreateComment(request: Request, region: bool, text: Text, notices: seq<AccountId>)
    | ChangeThread(request: Request, change: Change, notices: seq<AccountId>)

  datatype Answer =
    | Done | BindingNotFound | IdTaken | ThreadNotFound | ReplyNotFound | StateConflict | VersionConflict | Forbidden
    | StaleAuthorization

  datatype Result = Result(store: Store, answer: Answer)

  function Empty(): Store {
    Store(map[], map[], [])
  }

  // ----------------------------------------------------------------- events

  function Notify(events: seq<Event>, place: Place, thread: ThreadId, notices: seq<AccountId>): (next: seq<Event>)
    ensures Numbered(events) ==> Numbered(next)
    ensures events <= next
    decreases |notices|
  {
    if notices == [] then events
    else
      Notify(Record(events, place.revision, place.route, thread, NotificationCreated, Some(notices[0])),
             place, thread, notices[1..])
  }

  function Announce(
    events: seq<Event>, place: Place, thread: ThreadId, kind: EventKind, notices: seq<AccountId>)
    : (next: seq<Event>)
    ensures Numbered(events) ==> Numbered(next)
    ensures events < next
    ensures next[|events|] == Event(|events| + 1, place.revision, place.route, thread, kind, None)
  {
    Notify(Record(events, place.revision, place.route, thread, kind, None), place, thread, notices)
  }

  // ------------------------------------------------------------- decisions

  /** The policy every edit and deletion of a comment or reply goes through. */
  function CheckContent(
    deleting: bool, actor: AccountId, canManage: bool, author: AccountId, version: int, contentDeleted: bool,
    status: Status, threadDeleted: bool, expectedVersion: int): Answer
  {
    if author != actor && (!deleting || !canManage) then Forbidden
    else if contentDeleted || (!deleting && (status == Resolved || threadDeleted)) then StateConflict
    else if version != expectedVersion then VersionConflict
    else Done
  }

  function WorkflowVersion(t: Thread): int {
    if t.workflowVersion.Some? then t.workflowVersion.value else 1
  }

  function FindReply(replies: seq<Reply>, id: ReplyId): (found: Option<Reply>)
    ensures found.Some? ==> found.value.id == id
  {
    if replies == [] then None
    else if replies[0].id == id then Some(replies[0])
    else FindReply(replies[1..], id)
  }

  function ReplaceReply(replies: seq<Reply>, reply: Reply): (next: seq<Reply>)
    ensures |next| == |replies|
    ensures forall i | 0 <= i < |replies| :: next[i] == if replies[i].id == reply.id then reply else replies[i]
  {
    if replies == [] then []
    else [if replies[0].id == reply.id then reply else replies[0]] + ReplaceReply(replies[1..], reply)
  }

  datatype Decision = Refuse(answer: Answer) | Accept(thread: Thread, kind: EventKind)

  function DecideStatus(
    t: Thread, r: Request, expectedStatus: Status, expectedWorkflowVersion: int, status: Status): Decision
  {
    if t.status != expectedStatus || WorkflowVersion(t) != expectedWorkflowVersion || t.deleted.Some?
    then Refuse(StateConflict)
    else if !r.canManage && !(t.author == r.actor && t.status == NeedsReview && status != NeedsReview) then
      Refuse(StaleAuthorization)
    else
      var version := WorkflowVersion(t) + 1;
      var changed := t.(
        workflowVersion := Some(version),
        history := t.history + [Entry(version, t.status, status, r.actor, r.now)],
        status := status,
        resolvedBy := if status == Resolved then Some(r.actor) else None,
        resolvedAt := if status == Resolved then Some(r.now) else None);
      Accept(changed, ThreadStatusChanged)
  }

  function DecideReply(
    t: Thread, r: Request, id: ReplyId, deleting: bool, text: Option<Text>, expectedVersion: int): Decision
  {
    var found := FindReply(t.replies, id);
    if found.None? then Refuse(ReplyNotFound)
    else
      var reply := found.value;
      var decision := CheckContent(deleting, r.actor, deleting && r.canManage, reply.author, reply.version,
        reply.deleted.Some?, t.status, t.deleted.Some?, expectedVersion);
      if !decision.Done? then Refuse(decision)
      else
        var changed := reply.(
          body := text, version := reply.version + 1,
          deleted := if deleting then Some(Deletion(r.actor, r.now)) else reply.deleted);
        Accept(t.(replies := ReplaceReply(t.replies, changed)), if deleting then ReplyDeleted else ReplyUpdated)
  }

  function DecideComment(t: Thread, r: Request, deleting: bool, text: Option<Text>, expectedVersion: int): Decision {
    var decision := CheckContent(deleting, r.actor, deleting && r.canManage, t.author, t.version,
      t.deleted.Some?, t.status, t.deleted.Some?, expectedVersion);
    if !decision.Done? then Refuse(decision)
    else
      Accept(t.(body := text, version := t.version + 1,
                deleted := if deleting then Some(Deletion(r.actor, r.now)) else t.deleted),
             if deleting then CommentDeleted else CommentUpdated)
  }

  function Decide(t: Thread, r: Request, change: Change): Decision {
    match change
    case AddReply(id, body) =>
      if t.status == Resolved || t.deleted.Some? then Refuse(StateConflict)
      else Accept(t.(replies := t.replies + [Reply(id, Some(body), 1, r.actor, None)]), ReplyCreated)
    case SetStatus(expectedStatus, expectedWorkflowVersion, status) =>
      DecideStatus(t, r, expectedStatus, expectedWorkflowVersion, status)
    case EditComment(text, expectedVersion) => DecideComment(t, r, false, Some(text), expectedVersion)
    case DeleteComment(expectedVersion) => DecideComment(t, r, true, None, expectedVersion)
    case EditReply(reply, text, expectedVersion) => DecideReply(t, r, reply, false, Some(text), expectedVersion)
    case DeleteReply(reply, expectedVersion) => DecideReply(t, r, reply, true, None, expectedVersion)
    case ReadNotification => Accept(t, NotificationReadChanged)
  }

  // ------------------------------------------------------------- operations

  function NextPin(s: Store, place: Place): int {
    if place in s.pinCounters then s.pinCounters[place] else 1
  }

  function NewThread(place: Place, author: AccountId, region: bool, text: Text, pin: Option<int>): Thread {
    Thread(place.revision, place.route, region, pin, author, Some(text), 1, None, Open, None, [], None, None, [])
  }

  function Create(s: Store, r: Request, region: bool, text: Text, notices: seq<AccountId>): Result {
    if !r.access then Result(s, BindingNotFound)
    else if r.thread in s.threads then Result(s, IdTaken)
    else
      var pin := NextPin(s, r.place);
      var thread := NewThread(r.place, r.actor, region, text, if region then Some(pin) else None);
      Result(Store(s.threads[r.thread := thread],
                   if region then s.pinCounters[r.place := pin + 1] else s.pinCounters,
                   Announce(s.events, r.place, r.thread, CommentCreated, notices)), Done)
  }

  predicate Bound(s: Store, r: Request) {
    && r.access && r.thread in s.threads
    && s.threads[r.thread].revision == r.place.revision && s.threads[r.thread].route == r.place.route
  }

  /** Read receipts go to their reader alone; every other change is announced to the whole place. */
  function EventsOf(s: Store, r: Request, kind: EventKind, notices: seq<AccountId>): seq<Event> {
    if kind.NotificationReadChanged?
    then Record(s.events, r.place.revision, r.place.route, r.thread, kind, Some(r.actor))
    else Announce(s.events, r.place, r.thread, kind, notices)
  }

  function Alter(s: Store, r: Request, change: Change, notices: seq<AccountId>): Result {
    if !Bound(s, r) then Result(s, ThreadNotFound)
    else
      match Decide(s.threads[r.thread], r, change)
      case Refuse(answer) => Result(s, answer)
      case Accept(thread, kind) =>
        Result(s.(threads := s.threads[r.thread := thread], events := EventsOf(s, r, kind, notices)), Done)
  }

  function Perform(s: Store, op: Operation): Result {
    match op
    case CreateComment(request, region, text, notices) => Create(s, request, region, text, notices)
    case ChangeThread(request, change, notices) => Alter(s, request, change, notices)
  }

  function Run(s: Store, ops: seq<Operation>): Store
    decreases |ops|
  {
    if ops == [] then s else Run(Perform(s, ops[0]).store, ops[1..])
  }

  // ---------------------------------------------------------------- history

  /** A connected chain from Open to the present status, with consecutive versions. */
  ghost predicate Chained(t: Thread) {
    && WorkflowVersion(t) == |t.history| + 1
    && (forall i | 0 <= i < |t.history| :: t.history[i].version == i + 2)
    && (forall i | 0 < i < |t.history| :: t.history[i].from == t.history[i - 1].to)
    && (if t.history == [] then t.status == Open
        else t.history[0].from == Open && t.history[|t.history| - 1].to == t.status)
  }

  ghost predicate ThreadSound(t: Thread) {
    && Chained(t)
    && (t.status == Resolved <==> t.resolvedBy.Some?)
    && (t.status == Resolved <==> t.resolvedAt.Some?)
    && (t.deleted.Some? <==> t.body.None?)
    && (forall i | 0 <= i < |t.replies| :: t.replies[i].deleted.Some? <==> t.replies[i].body.None?)
  }

  ghost predicate ThreadsSound(s: Store) {
    forall id | id in s.threads :: ThreadSound(s.threads[id])
  }

  function PlaceOf(t: Thread): Place {
    Place(t.revision, t.route)
  }

  /** Region pins of one place are exactly 1, 2, ... without repeats; page comments have none. */
  ghost predicate PinsSound(s: Store) {
    && (forall place | place in s.pinCounters :: s.pinCounters[place] >= 1)
    && (forall id | id in s.threads ::
          if s.threads[id].region
          then s.threads[id].pin.Some? && 1 <= s.threads[id].pin.value < NextPin(s, PlaceOf(s.threads[id]))
          else s.threads[id].pin.None?)
    && (forall a, b | a in s.threads && b in s.threads && s.threads[a].region && s.threads[b].region ::
          PlaceOf(s.threads[a]) == PlaceOf(s.threads[b]) && s.threads[a].pin == s.threads[b].pin ==> a == b)
    && (forall place: Place, n: int | 1 <= n < NextPin(s, place) :: Pinned(s, place, n))
  }

  ghost predicate Pinned(s: Store, place: Place, n: int) {
    exists id | id in s.threads ::
      s.threads[id].region && PlaceOf(s.threads[id]) == place && s.threads[id].pin == Some(n)
  }

  ghost predicate Sound(s: Store) {
    ThreadsSound(s) && PinsSound(s) && Numbered(s.events)
  }

  // --------------------------------------------------- what a change keeps

  /** Where a thread hangs, who wrote it and its pin never change. */
  ghost predicate SameThread(t: Thread, next: Thread) {
    && next.revision == t.revision && next.route == t.route && next.region == t.region
    && next.pin == t.pin && next.author == t.author
  }

  ghost predicate SameContent(t: Thread, next: Thread) {
    next.body == t.body && next.version == t.version && next.deleted == t.deleted
  }

  ghost predicate SameWorkflow(t: Thread, next: Thread) {
    && next.status == t.status && next.workflowVersion == t.workflowVersion && next.history == t.history
    && next.resolvedBy == t.resolvedBy && next.resolvedAt == t.resolvedAt
  }

  /** One step of a thread's life. */
  ghost predicate Advances(t: Thread, next: Thread) {
    && SameThread(t, next)
    && t.version <= next.version && t.history <= next.history
    && WorkflowVersion(t) <= WorkflowVersion(next)
    && (t.deleted.Some? ==> SameContent(t, next) && SameWorkflow(t, next) && |next.replies| == |t.replies|)
    && (forall id: ReplyId | FindReply(t.replies, id).Some? :: ReplyAdvances(t, next, id))
  }

  ghost predicate ReplyAdvances(t: Thread, next: Thread, id: ReplyId)
    requires FindReply(t.replies, id).Some?
  {
    var reply := FindReply(t.replies, id).value;
    && FindReply(next.replies, id).Some?
    && var changed := FindReply(next.replies, id).value;
       && changed.author == reply.author && reply.version <= changed.version
       && (reply.deleted.Some? ==> changed == reply)
  }

  lemma DecideStatusIsSound(t: Thread, r: Request, expectedStatus: Status, expectedWorkflowVersion: int, status: Status)
    requires ThreadSound(t)
    ensures var d := DecideStatus(t, r, expectedStatus, expectedWorkflowVersion, status);
            d.Accept? ==> ThreadSound(d.thread) && Advances(t, d.thread)
                          && WorkflowVersion(d.thread) == expectedWorkflowVersion + 1 && d.thread.status == status
  {
  }

  lemma DecideCommentIsSound(t: Thread, r: Request, deleting: bool, text: Option<Text>, expectedVersion: int)
    requires ThreadSound(t) && (deleting <==> text.None?)
    ensures var d := DecideComment(t, r, deleting, text, expectedVersion);
            d.Accept? ==> ThreadSound(d.thread) && Advances(t, d.thread)
                          && t.version == expectedVersion && d.thread.version == expectedVersion + 1
  {
  }

  lemma {:induction false} FindAfterAppend(replies: seq<Reply>, more: Reply, id: ReplyId)
    requires FindReply(replies, id).Some?
    ensures FindReply(replies + [more], id) == FindReply(replies, id)
  {
    if replies[0].id != id {
      assert (replies + [more])[1..] == replies[1..] + [more];
      FindAfterAppend(replies[1..], more, id);
    }
  }

  lemma {:induction false} FindAfterReplace(replies: seq<Reply>, reply: Reply, id: ReplyId)
    requires FindReply(replies, id).Some?
    ensures FindReply(ReplaceReply(replies, reply), id)
            == if id == reply.id then Some(reply) else FindReply(replies, id)
  {
    if replies[0].id != id {
      FindAfterReplace(replies[1..], reply, id);
    }
  }

  lemma DecideReplyIsSound(t: Thread, r: Request, id: ReplyId, deleting: bool, text: Option<Text>, expectedVersion: int)
    requires ThreadSound(t) && (deleting <==> text.None?)
    ensures var d := DecideReply(t, r, id, deleting, text, expectedVersion);
            d.Accept? ==>
              && ThreadSound(d.thread) && Advances(t, d.thread)
              && FindReply(t.replies, id).Some? && FindReply(t.replies, id).value.version == expectedVersion
              && FindReply(d.thread.replies, id).Some?
              && FindReply(d.thread.replies, id).value.version == expectedVersion + 1
  {
    var d := DecideReply(t, r, id, deleting, text, expectedVersion);
    if d.Accept? {
      var reply := FindReply(t.replies, id).value;
      var changed := reply.(
        body := text, version := reply.version + 1,
        deleted := if deleting then Some(Deletion(r.actor, r.now)) else reply.deleted);
      ReplacingReply(t, reply, changed);
    }
  }

  lemma ReplacingReply(t: Thread, reply: Reply, changed: Reply)
    requires ThreadSound(t) && FindReply(t.replies, reply.id) == Some(reply) && reply.deleted.None?
    requires changed.id == reply.id && changed.author == reply.author && changed.version >= reply.version
    requires changed.deleted.Some? <==> changed.body.None?
    ensures var next := t.(replies := ReplaceReply(t.replies, changed));
            ThreadSound(next) && Advances(t, next) && FindReply(next.replies, reply.id) == Some(changed)
  {
    var next := t.(replies := ReplaceReply(t.replies, changed));
    forall other: ReplyId | FindReply(t.replies, other).Some? ensures ReplyAdvances(t, next, other) {
      FindAfterReplace(t.replies, changed, other);
    }
    FindAfterReplace(t.replies, changed, reply.id);
  }

  lemma DecideIsSound(t: Thread, r: Request, change: Change)
    requires ThreadSound(t)
    ensures var d := Decide(t, r, change);
            d.Accept? ==> ThreadSound(d.thread) && Advances(t, d.thread)
  {
    match change
    case AddReply(id, body) =>
      var reply := Reply(id, Some(body), 1, r.actor, None);
      forall other: ReplyId | FindReply(t.replies, other).Some?
        ensures ReplyAdvances(t, t.(replies := t.replies + [reply]), other)
      {
        FindAfterAppend(t.replies, reply, other);
      }
    case SetStatus(expectedStatus, expectedWorkflowVersion, status) =>
      DecideStatusIsSound(t, r, expectedStatus, expectedWorkflowVersion, status);
    case EditComment(text, expectedVersion) => DecideCommentIsSound(t, r, false, Some(text), expectedVersion);
    case DeleteComment(expectedVersion) => DecideCommentIsSound(t, r, true, None, expectedVersion);
    case EditReply(reply, text, expectedVersion) => DecideReplyIsSound(t, r, reply, false, Some(text), expectedVersion);
    case DeleteReply(reply, expectedVersion) => DecideReplyIsSound(t, r, reply, true, None, expectedVersion);
    case ReadNotification =>
  }

  // -------------------------------------------------------------- every step

  lemma ReplacingKeepsPins(s: Store, id: ThreadId, t: Thread, events: seq<Event>)
    requires PinsSound(s) && id in s.threads && SameThread(s.threads[id], t)
    ensures PinsSound(s.(threads := s.threads[id := t], events := events))
  {
    var next := s.(threads := s.threads[id := t], events := events);
    forall place: Place, n: int | 1 <= n < NextPin(next, place) ensures Pinned(next, place, n) {
      assert NextPin(s, place) == NextPin(next, place) && Pinned(s, place, n);
      var holder :| holder in s.threads && s.threads[holder].region && PlaceOf(s.threads[holder]) == place
                    && s.threads[holder].pin == Some(n);
      assert holder in next.threads;
    }
  }

  lemma CreatingKeepsPins(s: Store, r: Request, region: bool, text: Text, notices: seq<AccountId>)
    requires PinsSound(s) && r.thread !in s.threads && r.access
    ensures PinsSound(Create(s, r, region, text, notices).store)
  {
    var next := Create(s, r, region, text, notices).store;
    forall place: Place, n: int | 1 <= n < NextPin(next, place) ensures Pinned(next, place, n) {
      if n < NextPin(s, place) {
        assert Pinned(s, place, n);
        var holder :| holder in s.threads && s.threads[holder].region && PlaceOf(s.threads[holder]) == place
                      && s.threads[holder].pin == Some(n);
        assert holder in next.threads;
      } else {
        assert r.thread in next.threads && PlaceOf(next.threads[r.thread]) == r.place;
      }
    }
  }

  lemma CreatingKeepsThreads(s: Store, r: Request, region: bool, text: Text, notices: seq<AccountId>)
    requires ThreadsSound(s)
    ensures ThreadsSound(Create(s, r, region, text, notices).store)
  {
  }

  lemma ReplacingKeepsThreads(s: Store, id: ThreadId, t: Thread, events: seq<Event>)
    requires ThreadsSound(s) && ThreadSound(t)
    ensures ThreadsSound(s.(threads := s.threads[id := t], events := events))
  {
  }

  lemma AlterIsSound(s: Store, r: Request, change: Change, notices: seq<AccountId>)
    requires Sound(s) && Bound(s, r)
    ensures Sound(Alter(s, r, change, notices).store)
    ensures s.events <= Alter(s, r, change, notices).store.events
  {
    var d := Decide(s.threads[r.thread], r, change);
    DecideIsSound(s.threads[r.thread], r, change);
    if d.Accept? {
      var events := EventsOf(s, r, d.kind, notices);
      EventsAreRecorded(s, r, d.kind, notices);
      ReplacingKeepsThreads(s, r.thread, d.thread, events);
      ReplacingKeepsPins(s, r.thread, d.thread, events);
    }
  }

  lemma PerformIsSound(s: Store, op: Operation)
    requires Sound(s)
    ensures Sound(Perform(s, op).store)
    ensures s.events <= Perform(s, op).store.events
  {
    match op
    case CreateComment(request, region, text, notices) =>
      if request.access && request.thread !in s.threads {
        CreatingKeepsThreads(s, request, region, text, notices);
        CreatingKeepsPins(s, request, region, text, notices);
      }
    case ChangeThread(request, change, notices) =>
      if Bound(s, request) {
        AlterIsSound(s, request, change, notices);
      }
  }

  /** Every thread of every run has a connected workflow history, and every place its pins 1..n. */
  lemma {:induction false} EveryRunIsSound(s: Store, ops: seq<Operation>)
    requires Sound(s)
    ensures Sound(Run(s, ops)) && s.events <= Run(s, ops).events
    decreases |ops|
  {
    if ops != [] {
      PerformIsSound(s, ops[0]);
      EveryRunIsSound(Perform(s, ops[0]).store, ops[1..]);
    }
  }

  lemma EmptyIsSound()
    ensures Sound(Empty())
  {
  }

  /** The history of a thread in any run, spelled out. */
  lemma HistoryIntegrity(ops: seq<Operation>, id: ThreadId)
    ensures var s := Run(Empty(), ops);
            id in s.threads ==>
              var t := s.threads[id];
              && (forall i | 0 <= i < |t.history| :: t.history[i].version == i + 2)
              && (forall i | 0 < i < |t.history| :: t.history[i].from == t.history[i - 1].to)
              && (t.history != [] ==> t.history[0].from == Open && t.history[|t.history| - 1].to == t.status)
              && (t.history == [] ==> t.status == Open)
              && (t.status == Resolved <==> t.resolvedBy.Some? && t.resolvedAt.Some?)
  {
    EmptyIsSound();
    EveryRunIsSound(Empty(), ops);
  }

  /** The pins of a place in any run are 1, 2, ..., n, each held by exactly one region comment. */
  lemma PinsAreConsecutive(ops: seq<Operation>, place: Place, n: int)
    ensures var s := Run(Empty(), ops);
            1 <= n < NextPin(s, place) <==>
              exists id | id in s.threads ::
                && s.threads[id].region && PlaceOf(s.threads[id]) == place && s.threads[id].pin == Some(n)
                && forall other | other in s.threads && s.threads[other].region && PlaceOf(s.threads[other]) == place
                                  && s.threads[other].pin == Some(n) :: other == id
  {
    EmptyIsSound();
    EveryRunIsSound(Empty(), ops);
    var s := Run(Empty(), ops);
    if 1 <= n < NextPin(s, place) {
      assert Pinned(s, place, n);
      var id :| id in s.threads && s.threads[id].region && PlaceOf(s.threads[id]) == place
                && s.threads[id].pin == Some(n);
    }
  }

  // ----------------------------------------------------------- one thread's life

  ghost predicate Carries(s: Store, next: Store, id: ThreadId) {
    id in s.threads && id in next.threads && Advances(s.threads[id], next.threads[id])
  }

  lemma OthersAreUntouched(s: Store, op: Operation, id: ThreadId)
    requires id in s.threads && op.request.thread != id
    ensures id in Perform(s, op).store.threads && Perform(s, op).store.threads[id] == s.threads[id]
  {
  }

  lemma PerformCarries(s: Store, op: Operation, id: ThreadId)
    requires Sound(s) && id in s.threads
    ensures Carries(s, Perform(s, op).store, id)
  {
    if op.request.thread != id {
      OthersAreUntouched(s, op, id);
    } else if op.ChangeThread? && Bound(s, op.request) {
      DecideIsSound(s.threads[id], op.request, op.change);
    }
  }

  lemma AdvancesIsTransitive(a: Thread, b: Thread, c: Thread)
    requires Advances(a, b) && Advances(b, c)
    ensures Advances(a, c)
  {
    forall id: ReplyId | FindReply(a.replies, id).Some? ensures ReplyAdvances(a, c, id) {
      assert ReplyAdvances(a, b, id);
      assert ReplyAdvances(b, c, id);
    }
  }

  /** Over any run a thread keeps its place and pin, its versions only rise, and what is deleted stays as it is. */
  lemma {:induction false} RunCarries(s: Store, ops: seq<Operation>, id: ThreadId)
    requires Sound(s) && id in s.threads
    ensures Carries(s, Run(s, ops), id)
    decreases |ops|
  {
    if ops != [] {
      var next := Perform(s, ops[0]).store;
      PerformIsSound(s, ops[0]);
      PerformCarries(s, ops[0], id);
      RunCarries(next, ops[1..], id);
      AdvancesIsTransitive(s.threads[id], next.threads[id], Run(s, ops).threads[id]);
    }
  }

  /** A deleted comment is final: text, version, workflow and number of replies never change again. */
  lemma DeletedIsFinal(before: seq<Operation>, ops: seq<Operation>, id: ThreadId)
    ensures var s := Run(Empty(), before);
            id in s.threads && s.threads[id].deleted.Some? ==>
              && id in Run(s, ops).threads
              && var t := Run(s, ops).threads[id];
                 && t.body.None? && SameContent(s.threads[id], t) && SameWorkflow(s.threads[id], t)
                 && |t.replies| == |s.threads[id].replies|
  {
    EmptyIsSound();
    EveryRunIsSound(Empty(), before);
    var s := Run(Empty(), before);
    if id in s.threads {
      RunCarries(s, ops, id);
    }
  }

  predicate EditsComment(op: Operation, id: ThreadId, version: int) {
    && op.ChangeThread? && op.request.thread == id
    && (op.change.EditComment? || op.change.DeleteComment?) && op.change.expectedVersion == version
  }

  predicate EditsReply(op: Operation, id: ThreadId, reply: ReplyId, version: int) {
    && op.ChangeThread? && op.request.thread == id
    && (op.change.EditReply? || op.change.DeleteReply?) && op.change.reply == reply
    && op.change.expectedVersion == version
  }

  predicate MovesStatus(op: Operation, id: ThreadId, version: int) {
    op.ChangeThread? && op.request.thread == id && op.change.SetStatus? && op.change.expectedWorkflowVersion == version
  }

  lemma CommentEditRaises(s: Store, op: Operation, id: ThreadId, version: int)
    requires Sound(s) && EditsComment(op, id, version) && Perform(s, op).answer.Done?
    ensures id in s.threads && s.threads[id].version == version
    ensures id in Perform(s, op).store.threads && Perform(s, op).store.threads[id].version == version + 1
  {
    DecideCommentIsSound(s.threads[id], op.request, op.change.DeleteComment?,
      if op.change.EditComment? then Some(op.change.text) else None, version);
  }

  lemma ReplyEditRaises(s: Store, op: Operation, id: ThreadId, reply: ReplyId, version: int)
    requires Sound(s) && EditsReply(op, id, reply, version) && Perform(s, op).answer.Done?
    ensures id in s.threads && FindReply(s.threads[id].replies, reply).Some?
    ensures FindReply(s.threads[id].replies, reply).value.version == version
    ensures id in Perform(s, op).store.threads && FindReply(Perform(s, op).store.threads[id].replies, reply).Some?
    ensures FindReply(Perform(s, op).store.threads[id].replies, reply).value.version == version + 1
  {
    DecideReplyIsSound(s.threads[id], op.request, reply, op.change.DeleteReply?,
      if op.change.EditReply? then Some(op.change.text) else None, version);
  }

  lemma StatusMoveRaises(s: Store, op: Operation, id: ThreadId, version: int)
    requires Sound(s) && MovesStatus(op, id, version) && Perform(s, op).answer.Done?
    ensures id in s.threads && WorkflowVersion(s.threads[id]) == version
    ensures id in Perform(s, op).store.threads && WorkflowVersion(Perform(s, op).store.threads[id]) == version + 1
  {
    DecideStatusIsSound(s.threads[id], op.request, op.change.expectedStatus, version, op.change.status);
  }

  /**
   Optimistic locking over whole runs: of all the edits and deletions of one
   comment that expect the same version, at most one succeeds, and so for each
   reply and for each workflow version.
   */
  lemma OneSuccessPerVersion(
    before: seq<Operation>, first: Operation, between: seq<Operation>, second: Operation, id: ThreadId, reply: ReplyId,
    version: int)
    requires Perform(Run(Empty(), before), first).answer.Done?
    requires || (EditsComment(first, id, version) && EditsComment(second, id, version))
             || (EditsReply(first, id, reply, version) && EditsReply(second, id, reply, version))
             || (MovesStatus(first, id, version) && MovesStatus(second, id, version))
    ensures var s := Run(Perform(Run(Empty(), before), first).store, between);
            !Perform(s, second).answer.Done? && Perform(s, second).store == s
  {
    EmptyIsSound();
    EveryRunIsSound(Empty(), before);
    var start := Run(Empty(), before);
    if EditsComment(first, id, version) {
      OneEditPerVersion(start, first, between, second, id, version);
    } else if EditsReply(first, id, reply, version) {
      OneReplyEditPerVersion(start, first, between, second, id, reply, version);
    } else {
      OneMovePerVersion(start, first, between, second, id, version);
    }
    RefusedChangesNothing(Run(Perform(start, first).store, between), second);
  }

  lemma RefusedChangesNothing(s: Store, op: Operation)
    requires !Perform(s, op).answer.Done?
    ensures Perform(s, op).store == s
  {
  }

  lemma OneEditPerVersion(
    start: Store, first: Operation, between: seq<Operation>, second: Operation, id: ThreadId, version: int)
    requires Sound(start) && Perform(start, first).answer.Done?
    requires EditsComment(first, id, version) && EditsComment(second, id, version)
    ensures !Perform(Run(Perform(start, first).store, between), second).answer.Done?
  {
    var changed := Perform(start, first).store;
    PerformIsSound(start, first);
    CommentEditRaises(start, first, id, version);
    RunCarries(changed, between, id);
    LaterCommentEditFails(Run(changed, between), second, id, version);
  }

  lemma OneReplyEditPerVersion(
    start: Store, first: Operation, between: seq<Operation>, second: Operation, id: ThreadId, reply: ReplyId,
    version: int)
    requires Sound(start) && Perform(start, first).answer.Done?
    requires EditsReply(first, id, reply, version) && EditsReply(second, id, reply, version)
    ensures !Perform(Run(Perform(start, first).store, between), second).answer.Done?
  {
    var changed := Perform(start, first).store;
    PerformIsSound(start, first);
    ReplyEditRaises(start, first, id, reply, version);
    RunCarries(changed, between, id);
    assert ReplyAdvances(changed.threads[id], Run(changed, between).threads[id], reply);
    LaterReplyEditFails(Run(changed, between), second, id, reply, version);
  }

  lemma OneMovePerVersion(
    start: Store, first: Operation, between: seq<Operation>, second: Operation, id: ThreadId, version: int)
    requires Sound(start) && Perform(start, first).answer.Done?
    requires MovesStatus(first, id, version) && MovesStatus(second, id, version)
    ensures !Perform(Run(Perform(start, first).store, between), second).answer.Done?
  {
    var changed := Perform(start, first).store;
    PerformIsSound(start, first);
    StatusMoveRaises(start, first, id, version);
    RunCarries(changed, between, id);
    LaterStatusMoveFails(Run(changed, between), second, id, version);
  }

  lemma LaterCommentEditFails(s: Store, op: Operation, id: ThreadId, version: int)
    requires EditsComment(op, id, version) && id in s.threads && s.threads[id].version > version
    ensures !Perform(s, op).answer.Done?
  {
  }

  lemma LaterReplyEditFails(s: Store, op: Operation, id: ThreadId, reply: ReplyId, version: int)
    requires EditsReply(op, id, reply, version) && id in s.threads
    requires FindReply(s.threads[id].replies, reply).Some?
             && FindReply(s.threads[id].replies, reply).value.version > version
    ensures !Perform(s, op).answer.Done?
  {
  }

  lemma LaterStatusMoveFails(s: Store, op: Operation, id: ThreadId, version: int)
    requires MovesStatus(op, id, version) && id in s.threads && WorkflowVersion(s.threads[id]) > version
    ensures !Perform(s, op).answer.Done?
  {
  }

  // ---------------------------------------------------------------- the feed

  lemma EventsAreRecorded(s: Store, r: Request, kind: EventKind, notices: seq<AccountId>)
    requires Numbered(s.events)
    ensures var events := EventsOf(s, r, kind, notices);
            && Numbered(events) && s.events < events
            && events[|s.events|] == Event(|s.events| + 1, r.place.revision, r.place.route, r.thread, kind,
                                           if kind.NotificationReadChanged? then Some(r.actor) else None)
  {
  }

  lemma FirstIsFound(events: seq<Event>, k: nat, scope: Scope)
    requires Numbered(events) && k < |events| && Visible(events[k], scope)
    ensures events[k] in After(events, scope, k)
  {
    AfterIsExact(events, scope, k);
  }

  /** A change that succeeds leaves an event that everyone in its place, or its reader, can see. */
  lemma EveryChangeIsAnnounced(s: Store, op: Operation, scope: Scope)
    requires Numbered(s.events) && Perform(s, op).answer.Done?
    requires scope.revision == op.request.place.revision && scope.route == op.request.place.route
    requires op.ChangeThread? && op.change.ReadNotification? ==> scope.actor == op.request.actor
    ensures var next := Perform(s, op).store;
            && Numbered(next.events) && |next.events| > |s.events|
            && next.events[|s.events|] in After(next.events, scope, |s.events|)
            && next.events[|s.events|].thread == op.request.thread
  {
    var kind :=
      if op.CreateComment? then CommentCreated else Decide(s.threads[op.request.thread], op.request, op.change).kind;
    EventsAreRecorded(s, op.request, kind, op.notices);
    assert Perform(s, op).store.events == EventsOf(s, op.request, kind, op.notices);
    FirstIsFound(Perform(s, op).store.events, |s.events|, scope);
  }
}
