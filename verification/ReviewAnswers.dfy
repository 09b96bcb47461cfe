/**
 What the review repository answers to each request, condition by condition, what
 an accepted one stores and announces, and whose words a body can hold.
 */
module ReviewAnswers {
  import opened Options
  import Feed = ReviewFeed
  import opened ReviewStore

  // -------------------------------------------------------------- who may what

  /** Its author changes a text; its author or a manager of the project deletes it. */
  ghost predicate MayChange(r: Request, author: Feed.AccountId, deleting: bool) {
    r.actor == author || (deleting && r.canManage)
  }

  /** The request reaches a thread that hangs where it says. */
  ghost predicate Reaches(s: Store, r: Request) {
    && r.access && r.thread in s.threads
    && s.threads[r.thread].revision == r.place.revision && s.threads[r.thread].route == r.place.route
  }

  /** Text can be changed while the thread is open for it; it can be deleted as long as it is there. */
  ghost predicate Changeable(t: Thread, deleted: bool, deleting: bool) {
    !deleted && (deleting || (t.status != Resolved && t.deleted.None?))
  }

  /** The answers of the content policy, in their order of precedence. */
  ghost predicate ContentAnswer(
    answer: Answer, r: Request, t: Thread, author: Feed.AccountId, version: int, deleted: bool, deleting: bool,
    expectedVersion: int)
  {
    && (answer.Forbidden? <==> !MayChange(r, author, deleting))
    && (answer.StateConflict? <==> MayChange(r, author, deleting) && !Changeable(t, deleted, deleting))
    && (answer.VersionConflict? <==>
          MayChange(r, author, deleting) && Changeable(t, deleted, deleting) && version != expectedVersion)
    && (answer.Done? <==>
          MayChange(r, author, deleting) && Changeable(t, deleted, deleting) && version == expectedVersion)
  }

  lemma OthersAreKept(s: Store, op: Operation)
    ensures var next := Perform(s, op).store;
            && next.threads - {op.request.thread} == s.threads - {op.request.thread}
            && (!Perform(s, op).answer.Done? ==> next == s)
  {
  }

  ghost predicate ChangesComment(op: Operation) {
    op.ChangeThread? && (op.change.EditComment? || op.change.DeleteComment?)
  }

  /** A comment's text: who is refused and why, and what is stored otherwise. */
  lemma CommentAnswers(s: Store, op: Operation)
    requires ChangesComment(op)
    ensures var r, result, deleting := op.request, Perform(s, op), op.change.DeleteComment?;
            && (result.answer.ThreadNotFound? <==> !Reaches(s, r))
            && (Reaches(s, r) ==>
                  var t := s.threads[r.thread];
                  && ContentAnswer(result.answer, r, t, t.author, t.version, t.deleted.Some?, deleting,
                                   op.change.expectedVersion)
                  && (result.answer.Done? ==>
                        && r.thread in result.store.threads
                        && var next := result.store.threads[r.thread];
                           && next.body == (if deleting then None else Some(op.change.text))
                           && next.deleted == (if deleting then Some(Deletion(r.actor, r.now)) else None)
                           && next.version == t.version + 1
                           && next == t.(body := next.body, deleted := next.deleted, version := next.version)))
  {
  }

  ghost predicate ChangesReply(op: Operation) {
    op.ChangeThread? && (op.change.EditReply? || op.change.DeleteReply?)
  }

  /** A reply's text: the same policy, for the reply's own author and version. */
  lemma ReplyAnswers(s: Store, op: Operation)
    requires ChangesReply(op)
    ensures var r, result, deleting := op.request, Perform(s, op), op.change.DeleteReply?;
            && (result.answer.ThreadNotFound? <==> !Reaches(s, r))
            && (Reaches(s, r) ==>
                  var t := s.threads[r.thread];
                  var found := FindReply(t.replies, op.change.reply);
                  && (result.answer.ReplyNotFound? <==> found.None?)
                  && (found.Some? ==>
                        ContentAnswer(result.answer, r, t, found.value.author, found.value.version,
                                      found.value.deleted.Some?, deleting, op.change.expectedVersion)))
  {
  }

  /** The reply as the request makes it. */
  ghost function Made(reply: Reply, r: Request, change: Change): Reply
    requires change.EditReply? || change.DeleteReply?
  {
    Reply(reply.id, if change.DeleteReply? then None else Some(change.text), reply.version + 1, reply.author,
          if change.DeleteReply? then Some(Deletion(r.actor, r.now)) else reply.deleted)
  }

  lemma ReplyIsReplaced(s: Store, op: Operation)
    requires ChangesReply(op) && Perform(s, op).answer.Done?
    ensures var r, next := op.request, Perform(s, op).store;
            && Reaches(s, r) && r.thread in next.threads
            && var t := s.threads[r.thread];
               var found := FindReply(t.replies, op.change.reply);
               && found.Some? && found.value.deleted.None?
               && next.threads[r.thread]
                  == t.(replies := ReplaceReply(t.replies, Made(found.value, r, op.change)))
  {
  }

  /** What an accepted change of a reply stores: that reply's new text, and nothing else. */
  lemma StoredReply(s: Store, op: Operation)
    requires ChangesReply(op) && Perform(s, op).answer.Done?
    ensures var r, deleting, id := op.request, op.change.DeleteReply?, op.change.reply;
            var next := Perform(s, op).store;
            && Reaches(s, r) && r.thread in next.threads
            && var t, u := s.threads[r.thread], next.threads[r.thread];
               && u == t.(replies := u.replies) && |u.replies| == |t.replies|
               && FindReply(t.replies, id).Some? && FindReply(u.replies, id).Some?
               && (forall i | 0 <= i < |t.replies| && t.replies[i].id != id :: u.replies[i] == t.replies[i])
               && var was, made := FindReply(t.replies, id).value, FindReply(u.replies, id).value;
                  && made.body == (if deleting then None else Some(op.change.text))
                  && made.deleted == (if deleting then Some(Deletion(r.actor, r.now)) else None)
                  && made.version == was.version + 1 && made.author == was.author
  {
    ReplyIsReplaced(s, op);
    var t := s.threads[op.request.thread];
    var reply := FindReply(t.replies, op.change.reply).value;
    FindAfterReplace(t.replies, Made(reply, op.request, op.change), op.change.reply);
  }

  /** Its author may take a thread out of review; a manager may move it anywhere. */
  ghost predicate MayMove(r: Request, t: Thread, status: Status) {
    r.canManage || (r.actor == t.author && t.status == NeedsReview && status != NeedsReview)
  }

  /** A change of status: refused when the thread is not where the request thinks, or to whom it may not move for. */
  lemma StatusAnswers(s: Store, op: Operation)
    requires op.ChangeThread? && op.change.SetStatus?
    ensures var r, result := op.request, Perform(s, op);
            && (result.answer.ThreadNotFound? <==> !Reaches(s, r))
            && (Reaches(s, r) ==>
                  var t := s.threads[r.thread];
                  var agrees := && t.deleted.None? && t.status == op.change.expectedStatus
                                && WorkflowVersion(t) == op.change.expectedWorkflowVersion;
                  && (result.answer.StateConflict? <==> !agrees)
                  && (result.answer.StaleAuthorization? <==> agrees && !MayMove(r, t, op.change.status))
                  && (result.answer.Done? <==> agrees && MayMove(r, t, op.change.status))
                  && (result.answer.Done? ==> MovedTo(t, result.store, r, op.change.status)))
  {
  }

  ghost predicate MovedTo(t: Thread, next: Store, r: Request, status: Status) {
    r.thread in next.threads &&
    var u, resolved := next.threads[r.thread], status == Resolved;
    && u.status == status && u.workflowVersion == Some(WorkflowVersion(t) + 1)
    && u.history == t.history + [Entry(WorkflowVersion(t) + 1, t.status, status, r.actor, r.now)]
    && u.resolvedBy == (if resolved then Some(r.actor) else None)
    && u.resolvedAt == (if resolved then Some(r.now) else None)
    && u == t.(status := u.status, workflowVersion := u.workflowVersion, history := u.history,
               resolvedBy := u.resolvedBy, resolvedAt := u.resolvedAt)
  }

  /** A reply is taken exactly while the thread is neither resolved nor deleted; a read receipt always. */
  lemma OtherAnswers(s: Store, op: Operation)
    requires op.ChangeThread? && (op.change.AddReply? || op.change.ReadNotification?)
    ensures var r, result := op.request, Perform(s, op);
            && (result.answer.ThreadNotFound? <==> !Reaches(s, r))
            && (Reaches(s, r) ==>
                  var t := s.threads[r.thread];
                  && (result.answer.StateConflict? <==>
                        op.change.AddReply? && (t.status == Resolved || t.deleted.Some?))
                  && (result.answer.StateConflict? || result.answer.Done?)
                  && (result.answer.Done? ==>
                        && r.thread in result.store.threads
                        && var u := result.store.threads[r.thread];
                           if op.change.AddReply?
                           then
                             var reply := Reply(op.change.id, Some(op.change.body), 1, r.actor, None);
                             u == t.(replies := t.replies + [reply])
                           else u == t))
  {
  }

  /** A comment is created exactly with access and under a new id: open, by its actor, with its text. */
  lemma CreationAnswers(s: Store, op: Operation)
    requires op.CreateComment?
    ensures var r, result := op.request, Perform(s, op);
            && (result.answer.BindingNotFound? <==> !r.access)
            && (result.answer.IdTaken? <==> r.access && r.thread in s.threads)
            && (result.answer.Done? <==> r.access && r.thread !in s.threads)
            && (result.answer.Done? ==>
                  && r.thread in result.store.threads
                  && var t := result.store.threads[r.thread];
                     && t.author == r.actor && t.body == Some(op.text) && t.version == 1 && t.deleted.None?
                     && t.status == Open && t.history == [] && t.replies == [] && PlaceOf(t) == r.place
                     && t.region == op.region)
  {
  }

  // ------------------------------------------------------------ announcements

  ghost function KindOf(op: Operation): Feed.EventKind {
    if op.CreateComment? then Feed.CommentCreated
    else
      match op.change
      case AddReply(_, _) => Feed.ReplyCreated
      case SetStatus(_, _, _) => Feed.ThreadStatusChanged
      case EditComment(_, _) => Feed.CommentUpdated
      case DeleteComment(_) => Feed.CommentDeleted
      case EditReply(_, _, _) => Feed.ReplyUpdated
      case DeleteReply(_, _) => Feed.ReplyDeleted
      case ReadNotification => Feed.NotificationReadChanged
  }

  ghost function Notification(id: int, place: Place, thread: Feed.ThreadId, account: Feed.AccountId): Feed.Event {
    Feed.Event(id, place.revision, place.route, thread, Feed.NotificationCreated, Some(account))
  }

  lemma {:induction false} NotifyIsExact(
    events: seq<Feed.Event>, place: Place, thread: Feed.ThreadId, notices: seq<Feed.AccountId>)
    ensures var next := Notify(events, place, thread, notices);
            && |next| == |events| + |notices|
            && forall i | 0 <= i < |notices| ::
                 next[|events| + i] == Notification(|events| + i + 1, place, thread, notices[i])
    decreases |notices|
  {
    if notices != [] {
      var first :=
        Feed.Record(events, place.revision, place.route, thread, Feed.NotificationCreated, Some(notices[0]));
      var next := Notify(first, place, thread, notices[1..]);
      NotifyIsExact(first, place, thread, notices[1..]);
      forall i | 0 <= i < |notices|
        ensures next[|events| + i] == Notification(|events| + i + 1, place, thread, notices[i])
      {
        if i > 0 {
          assert next[|first| + (i - 1)] == Notification(|first| + i, place, thread, notices[1..][i - 1]);
        }
      }
    }
  }

  /** The event of the change, then a notification for each account, in order. */
  ghost predicate Announces(
    events: seq<Feed.Event>, next: seq<Feed.Event>, place: Place, thread: Feed.ThreadId, kind: Feed.EventKind,
    recipient: Option<Feed.AccountId>, notices: seq<Feed.AccountId>)
  {
    var n := |events|;
    && events < next && |next| == n + 1 + |notices|
    && next[n] == Feed.Event(n + 1, place.revision, place.route, thread, kind, recipient)
    && forall i | 0 <= i < |notices| :: next[n + 1 + i] == Notification(n + 2 + i, place, thread, notices[i])
  }

  lemma AnnounceIsExact(
    events: seq<Feed.Event>, place: Place, thread: Feed.ThreadId, kind: Feed.EventKind, notices: seq<Feed.AccountId>)
    ensures Announces(events, Announce(events, place, thread, kind, notices), place, thread, kind, None, notices)
  {
    var first := Feed.Record(events, place.revision, place.route, thread, kind, None);
    NotifyIsExact(first, place, thread, notices);
    var next := Notify(first, place, thread, notices);
    forall i | 0 <= i < |notices|
      ensures next[|events| + 1 + i] == Notification(|events| + 2 + i, place, thread, notices[i])
    {
      assert next[|first| + i] == Notification(|first| + i + 1, place, thread, notices[i]);
    }
  }

  lemma PerformRecords(s: Store, op: Operation)
    requires Perform(s, op).answer.Done?
    ensures Perform(s, op).store.events == EventsOf(s, op.request, KindOf(op), op.notices)
  {
  }

  /**
   What an accepted request announces: its own kind of event, for everyone in the
   place, then one notification for each account it is to notify, in order; a read
   receipt is for its reader alone and notifies nobody. Nothing more is recorded.
   */
  lemma AnnouncementIsExact(s: Store, op: Operation)
    requires Perform(s, op).answer.Done?
    ensures var r, next := op.request, Perform(s, op).store.events;
            if op.ChangeThread? && op.change.ReadNotification?
            then Announces(s.events, next, r.place, r.thread, KindOf(op), Some(r.actor), [])
            else Announces(s.events, next, r.place, r.thread, KindOf(op), None, op.notices)
  {
    PerformRecords(s, op);
    AnnounceIsExact(s.events, op.request.place, op.request.thread, KindOf(op), op.notices);
  }

  // ------------------------------------------------------------ whose words

  /** The k-th request of the run gave the comment this body: its author's text, or none by its author or a manager. */
  ghost predicate BodyGiven(s: Store, ops: seq<Operation>, k: nat, id: Feed.ThreadId, body: Option<Text>)
    requires k < |ops|
  {
    var before, op := Run(s, ops[..k]), ops[k];
    && ChangesComment(op) && op.request.thread == id && Perform(before, op).answer.Done? && id in before.threads
    && body == (if op.change.EditComment? then Some(op.change.text) else None)
    && MayChange(op.request, before.threads[id].author, op.change.DeleteComment?)
  }

  /** The same for a reply of the thread. */
  ghost predicate ReplyBodyGiven(
    s: Store, ops: seq<Operation>, k: nat, id: Feed.ThreadId, reply: ReplyId, body: Option<Text>)
    requires k < |ops|
  {
    var before, op := Run(s, ops[..k]), ops[k];
    && ChangesReply(op) && op.request.thread == id && op.change.reply == reply && Perform(before, op).answer.Done?
    && body == (if op.change.EditReply? then Some(op.change.text) else None)
    && HasReply(before, id, reply)
    && MayChange(op.request, ReplyAuthor(before, id, reply), op.change.DeleteReply?)
  }

  lemma StepGivesBody(s: Store, op: Operation, id: Feed.ThreadId)
    requires id in s.threads
    ensures var next := Perform(s, op).store;
            && id in next.threads
            && (next.threads[id].body != s.threads[id].body ==>
                  && ChangesComment(op) && op.request.thread == id && Perform(s, op).answer.Done?
                  && next.threads[id].body == (if op.change.EditComment? then Some(op.change.text) else None)
                  && MayChange(op.request, s.threads[id].author, op.change.DeleteComment?))
  {
    OthersAreKept(s, op);
    assert id != op.request.thread ==> id in s.threads - {op.request.thread};
    if ChangesComment(op) {
      CommentAnswers(s, op);
    } else if ChangesReply(op) {
      if Perform(s, op).answer.Done? {
        StoredReply(s, op);
      }
    } else if op.ChangeThread? && op.change.SetStatus? {
      StatusAnswers(s, op);
    } else if op.ChangeThread? {
      OtherAnswers(s, op);
    }
  }

  lemma {:induction false} RunOfAppend(s: Store, ops: seq<Operation>, op: Operation)
    ensures Run(s, ops + [op]) == Perform(Run(s, ops), op).store
    decreases |ops|
  {
    if ops == [] {
      assert [op][1..] == [] && ops + [op] == [op];
    } else {
      assert (ops + [op])[1..] == ops[1..] + [op];
      RunOfAppend(Perform(s, ops[0]).store, ops[1..], op);
    }
  }

  lemma GivenEarlier(s: Store, ops: seq<Operation>, last: Operation, k: nat, id: Feed.ThreadId, body: Option<Text>)
    requires k < |ops| && BodyGiven(s, ops, k, id, body)
    ensures BodyGiven(s, ops + [last], k, id, body)
  {
    assert (ops + [last])[..k] == ops[..k] && (ops + [last])[k] == ops[k];
  }

  /** Over any run, what a comment says is what it said, or what its author last made it say, or nothing. */
  lemma {:induction false} EveryBodyIsItsAuthors(s: Store, ops: seq<Operation>, id: Feed.ThreadId)
    requires id in s.threads
    ensures var end := Run(s, ops);
            && id in end.threads
            && (end.threads[id].body != s.threads[id].body ==>
                  exists k | 0 <= k < |ops| :: BodyGiven(s, ops, k, id, end.threads[id].body))
    decreases |ops|
  {
    if ops != [] {
      var earlier, op := ops[..|ops| - 1], ops[|ops| - 1];
      assert ops == earlier + [op];
      RunOfAppend(s, earlier, op);
      EveryBodyIsItsAuthors(s, earlier, id);
      var before, end := Run(s, earlier), Run(s, ops);
      StepGivesBody(before, op, id);
      if end.threads[id].body != before.threads[id].body {
        assert ops[..|ops| - 1] == earlier && BodyGiven(s, ops, |ops| - 1, id, end.threads[id].body);
      } else if before.threads[id].body != s.threads[id].body {
        var k :| 0 <= k < |earlier| && BodyGiven(s, earlier, k, id, before.threads[id].body);
        GivenEarlier(s, earlier, op, k, id, before.threads[id].body);
      }
    }
  }

  // ------------------------------------------------------------------ replies

  ghost predicate HasReply(s: Store, id: Feed.ThreadId, reply: ReplyId) {
    id in s.threads && FindReply(s.threads[id].replies, reply).Some?
  }

  ghost function ReplyBody(s: Store, id: Feed.ThreadId, reply: ReplyId): Option<Text>
    requires HasReply(s, id, reply)
  {
    FindReply(s.threads[id].replies, reply).value.body
  }

  ghost function ReplyAuthor(s: Store, id: Feed.ThreadId, reply: ReplyId): Feed.AccountId
    requires HasReply(s, id, reply)
  {
    FindReply(s.threads[id].replies, reply).value.author
  }

  lemma StoredReplies(s: Store, op: Operation, reply: ReplyId)
    requires ChangesReply(op) && Perform(s, op).answer.Done? && HasReply(s, op.request.thread, reply)
    requires op.change.reply != reply
    ensures var next := Perform(s, op).store;
            HasReply(next, op.request.thread, reply)
            && ReplyBody(next, op.request.thread, reply) == ReplyBody(s, op.request.thread, reply)
  {
    ReplyIsReplaced(s, op);
    var t := s.threads[op.request.thread];
    var found := FindReply(t.replies, op.change.reply).value;
    FindAfterReplace(t.replies, Made(found, op.request, op.change), reply);
  }

  lemma StepGivesReplyBody(s: Store, op: Operation, id: Feed.ThreadId, reply: ReplyId)
    requires HasReply(s, id, reply)
    ensures var next := Perform(s, op).store;
            && HasReply(next, id, reply)
            && (ReplyBody(next, id, reply) != ReplyBody(s, id, reply) ==>
                  && ChangesReply(op) && op.request.thread == id && op.change.reply == reply
                  && Perform(s, op).answer.Done?
                  && ReplyBody(next, id, reply) == (if op.change.EditReply? then Some(op.change.text) else None)
                  && MayChange(op.request, ReplyAuthor(s, id, reply), op.change.DeleteReply?))
  {
    OthersAreKept(s, op);
    if id != op.request.thread {
      assert id in s.threads - {op.request.thread};
    } else if ChangesReply(op) {
      ReplyAnswers(s, op);
      if Perform(s, op).answer.Done? {
        if op.change.reply == reply {
          StoredReply(s, op);
        } else {
          StoredReplies(s, op, reply);
        }
      }
    } else if ChangesComment(op) {
      CommentAnswers(s, op);
    } else if op.ChangeThread? && op.change.SetStatus? {
      StatusAnswers(s, op);
    } else if op.ChangeThread? {
      OtherAnswers(s, op);
      if op.change.AddReply? && Perform(s, op).answer.Done? {
        FindAfterAppend(s.threads[id].replies,
                        Reply(op.change.id, Some(op.change.body), 1, op.request.actor, None), reply);
      }
    }
  }

  lemma ReplyGivenEarlier(
    s: Store, ops: seq<Operation>, last: Operation, k: nat, id: Feed.ThreadId, reply: ReplyId, body: Option<Text>)
    requires k < |ops| && ReplyBodyGiven(s, ops, k, id, reply, body)
    ensures ReplyBodyGiven(s, ops + [last], k, id, reply, body)
  {
    assert (ops + [last])[..k] == ops[..k] && (ops + [last])[k] == ops[k];
  }

  /** And so for every reply. */
  lemma {:induction false} EveryReplyIsItsAuthors(s: Store, ops: seq<Operation>, id: Feed.ThreadId, reply: ReplyId)
    requires HasReply(s, id, reply)
    ensures var end := Run(s, ops);
            && HasReply(end, id, reply)
            && (ReplyBody(end, id, reply) != ReplyBody(s, id, reply) ==>
                  exists k | 0 <= k < |ops| :: ReplyBodyGiven(s, ops, k, id, reply, ReplyBody(end, id, reply)))
    decreases |ops|
  {
    if ops != [] {
      var earlier, op := ops[..|ops| - 1], ops[|ops| - 1];
      assert ops == earlier + [op];
      RunOfAppend(s, earlier, op);
      EveryReplyIsItsAuthors(s, earlier, id, reply);
      var before, end := Run(s, earlier), Run(s, ops);
      StepGivesReplyBody(before, op, id, reply);
      var body := ReplyBody(end, id, reply);
      if body != ReplyBody(before, id, reply) {
        assert ops[..|ops| - 1] == earlier && ReplyBodyGiven(s, ops, |ops| - 1, id, reply, body);
      } else if body != ReplyBody(s, id, reply) {
        var k :| 0 <= k < |earlier| && ReplyBodyGiven(s, earlier, k, id, reply, body);
        ReplyGivenEarlier(s, earlier, op, k, id, reply, body);
      }
    }
  }
}
