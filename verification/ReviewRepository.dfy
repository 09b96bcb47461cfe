/** The repository as the application holds it, its maps and its log changed in place. */
module ReviewRepository {
  import opened Options
  import opened ReviewFeed
  import opened ReviewStore

  class InMemoryReviewRepository {
    var threads: map<ThreadId, Thread>
    var pinCounters: map<Place, int>
    var events: seq<Event>

    function Value(): Store
      reads this
    {
      Store(threads, pinCounters, events)
    }

    constructor ()
      ensures Value() == Empty() && Sound(Value())
    {
      threads, pinCounters, events := map[], map[], [];
    }

    method TakePinNumber(place: Place) returns (next: int)
      modifies this
      ensures next == old(NextPin(Value(), place))
      ensures Value() == old(Value()).(pinCounters := old(pinCounters)[place := next + 1])
    {
      next := if place in pinCounters then pinCounters[place] else 1;
      pinCounters := pinCounters[place := next + 1];
    }

    method RecordChange(place: Place, thread: ThreadId, kind: EventKind, notices: seq<AccountId>)
      modifies this
      ensures Value() == old(Value()).(events := Announce(old(events), place, thread, kind, notices))
    {
      events := Record(events, place.revision, place.route, thread, kind, None);
      ghost var announced := events;
      var i := 0;
      while i < |notices|
        invariant 0 <= i <= |notices|
        invariant threads == old(threads) && pinCounters == old(pinCounters)
        invariant Notify(announced, place, thread, notices) == Notify(events, place, thread, notices[i..])
      {
        events := Record(events, place.revision, place.route, thread, NotificationCreated, Some(notices[i]));
        assert notices[i..][1..] == notices[i + 1..];
        i := i + 1;
      }
    }

    method CreatePageComment(r: Request, region: bool, text: Text, notices: seq<AccountId>)
      returns (answer: Answer)
      modifies this
      ensures Result(Value(), answer) == ReviewStore.Perform(old(Value()), CreateComment(r, region, text, notices))
    {
      if !r.access {
        return BindingNotFound;
      }
      if r.thread in threads {
        return IdTaken;
      }
      var pin := None;
      if region {
        var next := TakePinNumber(r.place);
        pin := Some(next);
      }
      threads := threads[r.thread := NewThread(r.place, r.actor, region, text, pin)];
      RecordChange(r.place, r.thread, CommentCreated, notices);
      return Done;
    }

    predicate FindsBoundThread(r: Request)
      reads this
    {
      && r.access && r.thread in threads
      && threads[r.thread].revision == r.place.revision && threads[r.thread].route == r.place.route
    }

    method CreateReply(r: Request, id: ReplyId, body: Text, notices: seq<AccountId>)
      returns (answer: Answer)
      modifies this
      ensures Result(Value(), answer) == ReviewStore.Perform(old(Value()), ChangeThread(r, AddReply(id, body), notices))
    {
      if !FindsBoundThread(r) {
        return ThreadNotFound;
      }
      var thread := threads[r.thread];
      if thread.status == Resolved || thread.deleted.Some? {
        return StateConflict;
      }
      threads := threads[r.thread := thread.(replies := thread.replies + [Reply(id, Some(body), 1, r.actor, None)])];
      RecordChange(r.place, r.thread, ReplyCreated, notices);
      return Done;
    }

    method ChangePageCommentStatus(
      r: Request, expectedStatus: Status, expectedWorkflowVersion: int, status: Status, notices: seq<AccountId>)
      returns (answer: Answer)
      modifies this
      ensures Result(Value(), answer)
              == ReviewStore.Perform(
                   old(Value()), ChangeThread(r, SetStatus(expectedStatus, expectedWorkflowVersion, status), notices))
    {
      if !FindsBoundThread(r) {
        return ThreadNotFound;
      }
      var thread := threads[r.thread];
      var version := if thread.workflowVersion.Some? then thread.workflowVersion.value else 1;
      if thread.status != expectedStatus || version != expectedWorkflowVersion || thread.deleted.Some? {
        return StateConflict;
      }
      if !r.canManage && !(thread.author == r.actor && thread.status == NeedsReview && status != NeedsReview) {
        return StaleAuthorization;
      }
      var history := thread.history + [Entry(version + 1, thread.status, status, r.actor, r.now)];
      var base := thread.(
        workflowVersion := Some(version + 1), history := history, status := status, resolvedBy := None,
        resolvedAt := None);
      threads := threads[r.thread :=
        if status == Resolved then base.(resolvedBy := Some(r.actor), resolvedAt := Some(r.now)) else base];
      RecordChange(r.place, r.thread, ThreadStatusChanged, notices);
      return Done;
    }

    method ChangeComment(
      r: Request, text: Option<Text>, expectedVersion: int, notices: seq<AccountId>)
      returns (answer: Answer)
      modifies this
      ensures var change :=
                if text.Some? then EditComment(text.value, expectedVersion) else DeleteComment(expectedVersion);
              Result(Value(), answer) == ReviewStore.Perform(old(Value()), ChangeThread(r, change, notices))
    {
      if !FindsBoundThread(r) {
        return ThreadNotFound;
      }
      var thread := threads[r.thread];
      var deleting := text.None?;
      answer := CheckContent(deleting, r.actor, deleting && r.canManage, thread.author, thread.version,
        thread.deleted.Some?, thread.status, thread.deleted.Some?, expectedVersion);
      if !answer.Done? {
        return;
      }
      var changed := thread.(body := text, version := thread.version + 1);
      if deleting {
        changed := changed.(deleted := Some(Deletion(r.actor, r.now)));
      }
      threads := threads[r.thread := changed];
      RecordChange(r.place, r.thread, if deleting then CommentDeleted else CommentUpdated, notices);
    }

    method ChangeReply(r: Request, reply: ReplyId, text: Option<Text>, expectedVersion: int, notices: seq<AccountId>)
      returns (answer: Answer)
      modifies this
      ensures var change := if text.Some? then EditReply(reply, text.value, expectedVersion)
                            else DeleteReply(reply, expectedVersion);
              Result(Value(), answer) == ReviewStore.Perform(old(Value()), ChangeThread(r, change, notices))
    {
      if !FindsBoundThread(r) {
        return ThreadNotFound;
      }
      var thread := threads[r.thread];
      var found := FindReply(thread.replies, reply);
      if found.None? {
        return ReplyNotFound;
      }
      var deleting := text.None?;
      answer := CheckContent(deleting, r.actor, deleting && r.canManage, found.value.author, found.value.version,
        found.value.deleted.Some?, thread.status, thread.deleted.Some?, expectedVersion);
      if !answer.Done? {
        return;
      }
      var changed := found.value.(body := text, version := found.value.version + 1);
      if deleting {
        changed := changed.(deleted := Some(Deletion(r.actor, r.now)));
      }
      threads := threads[r.thread := thread.(replies := ReplaceReply(thread.replies, changed))];
      RecordChange(r.place, r.thread, if deleting then ReplyDeleted else ReplyUpdated, notices);
    }
  }
}
