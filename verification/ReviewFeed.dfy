/** The review event log and the server-sent event subscriptions that follow it. */
module ReviewFeed {
  import opened Options

  type Revision(==, !new)
  type Route(==, !new)
  type AccountId(==, !new)
  type ThreadId(==, !new)

  datatype EventKind =
    | CommentCreated | ReplyCreated | ThreadStatusChanged | CommentUpdated | CommentDeleted | ReplyUpdated
    | ReplyDeleted
    | NotificationCreated | NotificationReadChanged

  /** An event without a recipient is for everyone in its revision and route. */
  datatype Event = Event(
    id: int, revision: Revision, route: Route, thread: ThreadId, kind: EventKind, recipient: Option<AccountId>)

  datatype Scope = Scope(revision: Revision, route: Route, actor: AccountId)

  // --------------------------------------------------------------- the log

  predicate Visible(e: Event, scope: Scope) {
    e.revision == scope.revision && e.route == scope.route && (e.recipient.None? || e.recipient == Some(scope.actor))
  }

  function After(events: seq<Event>, scope: Scope, cursor: int): seq<Event> {
    if events == [] then []
    else
      var earlier := After(events[..|events| - 1], scope, cursor);
      var e := events[|events| - 1];
      if Visible(e, scope) && e.id > cursor then earlier + [e] else earlier
  }

  function ListEvents(events: seq<Event>, scope: Scope, cursor: int, limit: nat): seq<Event> {
    var found := After(events, scope, cursor);
    if |found| <= limit then found else found[..limit]
  }

  /** Ids are issued from one, in the order of the log. */
  ghost predicate Numbered(events: seq<Event>) {
    forall i | 0 <= i < |events| :: events[i].id == i + 1
  }

  function Record(
    events: seq<Event>, revision: Revision, route: Route, thread: ThreadId, kind: EventKind,
    recipient: Option<AccountId>)
    : (next: seq<Event>)
    ensures Numbered(events) ==> Numbered(next)
  {
    events + [Event(|events| + 1, revision, route, thread, kind, recipient)]
  }

  lemma {:induction false} AfterIsExact(events: seq<Event>, scope: Scope, cursor: int)
    requires Numbered(events)
    ensures var found := After(events, scope, cursor);
            && (forall e :: e in found <==> e in events && Visible(e, scope) && e.id > cursor)
            && (forall i, j | 0 <= i < j < |found| :: found[i].id < found[j].id)
            && (forall e | e in found :: e.id <= |events|)
  {
    if events != [] {
      var last := |events| - 1;
      AfterIsExact(events[..last], scope, cursor);
      assert events == events[..last] + [events[last]];
      assert forall e | e in After(events[..last], scope, cursor) :: e.id <= last;
    }
  }

  /** An event is seen by those in its place, and if it has a recipient by nobody else. */
  lemma VisibilityIsExact(e: Event, scope: Scope)
    ensures Visible(e, scope) <==>
              && e.revision == scope.revision && e.route == scope.route
              && forall account: AccountId :: e.recipient == Some(account) ==> account == scope.actor
  {
  }

  /** A listing is the oldest of what is visible after the cursor, as much as the limit allows. */
  lemma ListingIsExact(events: seq<Event>, scope: Scope, cursor: int, limit: nat)
    requires Numbered(events)
    ensures var listed := ListEvents(events, scope, cursor, limit);
            && |listed| <= limit
            && (forall e | e in listed :: e in events && Visible(e, scope) && e.id > cursor)
            && (forall i, j | 0 <= i < j < |listed| :: listed[i].id < listed[j].id)
            && forall e | e in events && Visible(e, scope) && e.id > cursor ::
                 e in listed || (|listed| == limit && forall l | l in listed :: l.id < e.id)
  {
    AfterIsExact(events, scope, cursor);
    var found, listed := After(events, scope, cursor), ListEvents(events, scope, cursor, limit);
    forall e | e in found ensures e in listed || (|listed| == limit && forall l | l in listed :: l.id < e.id) {
      var k :| 0 <= k < |found| && found[k] == e;
      assert k < |listed| ==> listed[k] == e;
    }
  }

  lemma AfterRecord(events: seq<Event>, e: Event, scope: Scope, cursor: int)
    ensures After(events + [e], scope, cursor)
            == After(events, scope, cursor) + if Visible(e, scope) && e.id > cursor then [e] else []
  {
    assert (events + [e])[..|events|] == events;
  }

  /** Moving the cursor over the first event found drops exactly that event. */
  lemma {:induction false} AfterMovesOn(events: seq<Event>, scope: Scope, cursor: int)
    requires Numbered(events) && After(events, scope, cursor) != []
    ensures var found := After(events, scope, cursor);
            found[0].id > cursor && After(events, scope, found[0].id) == found[1..]
    decreases |events|
  {
    var last := |events| - 1;
    var earlier := events[..last];
    var e := events[last];
    var before := After(earlier, scope, cursor);
    if before == [] {
      AfterNothing(earlier, scope, last + 1);
    } else {
      AfterMovesOn(earlier, scope, cursor);
      AfterIsExact(earlier, scope, cursor);
      assert before[0] in before;
    }
  }

  lemma {:induction false} AfterNothing(events: seq<Event>, scope: Scope, cursor: int)
    requires Numbered(events) && cursor >= |events|
    ensures After(events, scope, cursor) == []
    decreases |events|
  {
    if events != [] {
      AfterNothing(events[..|events| - 1], scope, cursor);
    }
  }

  // ------------------------------------------------------- one subscription

  datatype Poll = Idle | Requested(cursor: int) | Fetched(batch: seq<Event>)

  /** What the response did with a chunk: took it, took it and asked to stop, or was already destroyed. */
  datatype Chunk = Taken | Overfull | Destroyed

  datatype Feed = Feed(
    events: seq<Event>, scope: Scope, start: int, cursor: int, closed: bool, poll: Poll, written: seq<Event>)

  datatype Step =
    | Append(revision: Revision, route: Route, thread: ThreadId, kind: EventKind, recipient: Option<AccountId>)
    | BeginPoll
    | Fetch(limit: nat)
    | Deliver(chunks: seq<Chunk>)
    | FailPoll
    | Close

  /** Events are written one by one; the cursor follows each chunk that was taken. */
  function WriteEvents(f: Feed, batch: seq<Event>, chunks: seq<Chunk>): Feed
    decreases |batch|
  {
    if batch == [] || chunks == [] || f.closed || chunks[0].Destroyed? then f
    else if chunks[0].Overfull? then f.(written := f.written + [batch[0]], closed := true)
    else WriteEvents(f.(written := f.written + [batch[0]], cursor := batch[0].id), batch[1..], chunks[1..])
  }

  function Perform(f: Feed, step: Step): Feed {
    match step
    case Append(revision, route, thread, kind, recipient) =>
      f.(events := Record(f.events, revision, route, thread, kind, recipient))
    case BeginPoll => if f.closed || !f.poll.Idle? then f else f.(poll := Requested(f.cursor))
    case Fetch(limit) =>
      if f.poll.Requested? then f.(poll := Fetched(ListEvents(f.events, f.scope, f.poll.cursor, limit))) else f
    case Deliver(chunks) =>
      if f.poll.Fetched? then WriteEvents(f, f.poll.batch, chunks).(poll := Idle) else f
    case FailPoll => if f.poll.Idle? then f else f.(poll := Idle, closed := true)
    case Close => f.(closed := true)
  }

  function Run(f: Feed, steps: seq<Step>): Feed
    decreases |steps|
  {
    if steps == [] then f else Run(Perform(f, steps[0]), steps[1..])
  }

  /** A subscription opens with its first listing already under way. */
  function Subscribe(events: seq<Event>, scope: Scope, start: int): Feed {
    Feed(events, scope, start, start, false, Requested(start), [])
  }

  // -------------------------------------------------------------- exactness

  /** While open, what was written and what is still to come make up everything after the start. */
  ghost predicate Exact(f: Feed) {
    && Numbered(f.events)
    && f.written <= After(f.events, f.scope, f.start)
    && (f.cursor == f.start || f.start < f.cursor <= |f.events|)
    && (!f.closed ==>
          && After(f.events, f.scope, f.start) == f.written + After(f.events, f.scope, f.cursor)
          && (f.poll.Requested? ==> f.poll.cursor == f.cursor)
          && (f.poll.Fetched? ==> f.poll.batch <= After(f.events, f.scope, f.cursor)))
  }

  /** One written event leaves the rest of what is visible after the start to the cursor it moved to. */
  lemma TakenKeepsExact(f: Feed)
    requires Exact(f.(poll := Idle)) && !f.closed && After(f.events, f.scope, f.cursor) != []
    ensures var found := After(f.events, f.scope, f.cursor);
            && Exact(f.(written := f.written + [found[0]], cursor := found[0].id, poll := Idle))
            && After(f.events, f.scope, found[0].id) == found[1..]
  {
    var found := After(f.events, f.scope, f.cursor);
    assert f.written + found == (f.written + [found[0]]) + found[1..];
    AfterMovesOn(f.events, f.scope, f.cursor);
    AfterIsExact(f.events, f.scope, f.cursor);
    assert found[0] in found;
  }

  lemma {:induction false} WritingKeepsExact(f: Feed, batch: seq<Event>, chunks: seq<Chunk>)
    requires Exact(f.(poll := Idle)) && (!f.closed ==> batch <= After(f.events, f.scope, f.cursor))
    ensures var next := WriteEvents(f, batch, chunks);
            Exact(next.(poll := Idle)) && next.events == f.events && next.scope == f.scope && next.start == f.start
    decreases |batch|
  {
    if batch != [] && chunks != [] && !f.closed && !chunks[0].Destroyed? {
      var found := After(f.events, f.scope, f.cursor);
      assert found[0] == batch[0];
      assert f.written + found == (f.written + [found[0]]) + found[1..];
      if chunks[0].Taken? {
        TakenKeepsExact(f);
        WritingKeepsExact(f.(written := f.written + [batch[0]], cursor := batch[0].id), batch[1..], chunks[1..]);
      }
    }
  }

  lemma {:induction false} AppendKeepsExact(f: Feed, e: Event)
    requires Exact(f) && e.id == |f.events| + 1
    ensures Exact(f.(events := f.events + [e]))
  {
    AfterRecord(f.events, e, f.scope, f.start);
    if !f.closed {
      AfterRecord(f.events, e, f.scope, f.cursor);
      var more := if Visible(e, f.scope) && e.id > f.cursor then [e] else [];
      assert f.written + (After(f.events, f.scope, f.cursor) + more) == After(f.events, f.scope, f.start) + more;
    }
  }

  lemma {:induction false} PerformKeepsExact(f: Feed, step: Step)
    requires Exact(f)
    ensures Exact(Perform(f, step))
  {
    match step
    case Append(revision, route, thread, kind, recipient) =>
      AppendKeepsExact(f, Event(|f.events| + 1, revision, route, thread, kind, recipient));
    case Deliver(chunks) =>
      if f.poll.Fetched? {
        WritingKeepsExact(f, f.poll.batch, chunks);
      }
    case _ =>
  }

  lemma {:induction false} EveryRunIsExact(f: Feed, steps: seq<Step>)
    requires Exact(f)
    ensures Exact(Run(f, steps))
    decreases |steps|
  {
    if steps != [] {
      PerformKeepsExact(f, steps[0]);
      EveryRunIsExact(Perform(f, steps[0]), steps[1..]);
    }
  }

  lemma {:induction false} RunKeepsScope(f: Feed, steps: seq<Step>)
    ensures var last := Run(f, steps);
            last.scope == f.scope && last.start == f.start && f.events <= last.events
    decreases |steps|
  {
    if steps != [] {
      if steps[0].Deliver? && f.poll.Fetched? {
        WritingKeepsLog(f, f.poll.batch, steps[0].chunks);
      }
      RunKeepsScope(Perform(f, steps[0]), steps[1..]);
    }
  }

  lemma {:induction false} WritingKeepsLog(f: Feed, batch: seq<Event>, chunks: seq<Chunk>)
    ensures var next := WriteEvents(f, batch, chunks);
            next.events == f.events && next.scope == f.scope && next.start == f.start
    decreases |batch|
  {
    if batch != [] && chunks != [] && !f.closed && chunks[0].Taken? {
      WritingKeepsLog(f.(written := f.written + [batch[0]], cursor := batch[0].id), batch[1..], chunks[1..]);
    }
  }

  /**
   What a subscription has written is always an initial part of the events its
   actor may see after the starting cursor: rising ids, none twice, none skipped.
   */
  lemma FeedIsExact(events: seq<Event>, scope: Scope, start: int, steps: seq<Step>)
    requires Numbered(events)
    ensures var f := Run(Subscribe(events, scope, start), steps);
            && f.written <= After(f.events, scope, start)
            && (forall i, j | 0 <= i < j < |f.written| :: f.written[i].id < f.written[j].id)
            && (forall e | e in f.written :: e in f.events && Visible(e, scope) && e.id > start)
            && (forall e, w | e in f.events && Visible(e, scope) && w in f.written && start < e.id <= w.id ::
                  e in f.written)
  {
    var first := Subscribe(events, scope, start);
    assert [] + After(events, scope, start) == After(events, scope, start);
    EveryRunIsExact(first, steps);
    RunKeepsScope(first, steps);
    var f := Run(first, steps);
    var found := After(f.events, scope, start);
    AfterIsExact(f.events, scope, start);
    assert forall i | 0 <= i < |f.written| :: f.written[i] == found[i];
    forall e, w | e in f.events && Visible(e, scope) && w in f.written && start < e.id <= w.id ensures e in f.written {
      assert e in found;
      var k :| 0 <= k < |found| && found[k] == e;
      var n :| 0 <= n < |f.written| && f.written[n] == w;
      assert found[n] == w && k <= n;
      assert f.written[k] == e;
    }
  }

  /** Whatever is appended and however the polls fall, nobody is sent an event that is meant for another. */
  lemma NothingPrivateIsSent(events: seq<Event>, scope: Scope, start: int, steps: seq<Step>)
    requires Numbered(events)
    ensures forall e | e in Run(Subscribe(events, scope, start), steps).written ::
              && e.revision == scope.revision && e.route == scope.route
              && (e.recipient.Some? ==> e.recipient.value == scope.actor)
  {
    FeedIsExact(events, scope, start, steps);
    var f := Run(Subscribe(events, scope, start), steps);
    forall e | e in f.written ensures e.recipient.Some? ==> e.recipient.value == scope.actor {
      VisibilityIsExact(e, scope);
    }
  }

  /** One undisturbed poll writes the next batch, and a batch below the limit leaves nothing unwritten. */
  lemma PollMakesProgress(f: Feed, limit: nat, chunks: seq<Chunk>)
    requires Exact(f) && !f.closed && f.poll.Idle?
    requires |chunks| >= limit && forall i | 0 <= i < |chunks| :: chunks[i].Taken?
    ensures var pending := After(f.events, f.scope, f.cursor);
            var next := Perform(Perform(Perform(f, BeginPoll), Fetch(limit)), Deliver(chunks));
            && !next.closed && next.poll.Idle?
            && next.written == f.written + ListEvents(f.events, f.scope, f.cursor, limit)
            && (|pending| <= limit ==> next.written == After(next.events, next.scope, next.start))
  {
    var batch := ListEvents(f.events, f.scope, f.cursor, limit);
    var fetched := Perform(Perform(f, BeginPoll), Fetch(limit));
    assert fetched == f.(poll := Fetched(batch));
    WritesAll(fetched, batch, chunks);
  }

  lemma {:induction false} WritesAll(f: Feed, batch: seq<Event>, chunks: seq<Chunk>)
    requires !f.closed && |chunks| >= |batch| && forall i | 0 <= i < |chunks| :: chunks[i].Taken?
    ensures var next := WriteEvents(f, batch, chunks);
            && !next.closed && next.written == f.written + batch
            && next.events == f.events && next.scope == f.scope && next.start == f.start
    decreases |batch|
  {
    if batch != [] {
      WritesAll(f.(written := f.written + [batch[0]], cursor := batch[0].id), batch[1..], chunks[1..]);
      assert f.written + [batch[0]] + batch[1..] == f.written + batch;
    }
  }

  // ------------------------------------------------------- a page's cursor

  predicate OnPage(e: Event, revision: Revision, route: Option<Route>) {
    e.revision == revision && (route.None? || route == Some(e.route))
  }

  /** The id of the last event of the page's revision and route, whoever it was meant for. */
  function PageCursor(events: seq<Event>, revision: Revision, route: Option<Route>): int {
    if events == [] then 0
    else if OnPage(events[|events| - 1], revision, route) then events[|events| - 1].id
    else PageCursor(events[..|events| - 1], revision, route)
  }

  lemma {:induction false} NothingAfterPage(events: seq<Event>, scope: Scope, route: Option<Route>)
    requires Numbered(events) && (route.None? || route == Some(scope.route))
    ensures 0 <= PageCursor(events, scope.revision, route) <= |events|
    ensures After(events, scope, PageCursor(events, scope.revision, route)) == []
  {
    if events != [] {
      var last := |events| - 1;
      if OnPage(events[last], scope.revision, route) {
        AfterNothing(events, scope, last + 1);
      } else {
        NothingAfterPage(events[..last], scope, route);
      }
    }
  }

  lemma {:induction false} AfterAppended(events: seq<Event>, later: seq<Event>, scope: Scope, cursor: int)
    ensures After(events + later, scope, cursor) == After(events, scope, cursor) + After(later, scope, cursor)
    decreases |later|
  {
    if later == [] {
      assert events + later == events;
    } else {
      var last := |later| - 1;
      assert (events + later)[..|events + later| - 1] == events + later[..last];
      AfterAppended(events, later[..last], scope, cursor);
    }
  }

  lemma {:induction false} AllAreLater(later: seq<Event>, scope: Scope, cursor: int, floor: int)
    requires floor <= cursor && forall i | 0 <= i < |later| :: later[i].id > cursor
    ensures After(later, scope, cursor) == After(later, scope, floor)
  {
    if later != [] {
      AllAreLater(later[..|later| - 1], scope, cursor, floor);
    }
  }

  /**
   A subscription that starts from a page's cursor gets exactly the events of
   the page's scope that were recorded after the page was read: none of them is
   missed and none from before is repeated.
   */
  lemma PageCursorCoversLaterEvents(events: seq<Event>, later: seq<Event>, scope: Scope, route: Option<Route>)
    requires Numbered(events + later) && (route.None? || route == Some(scope.route))
    ensures After(events + later, scope, PageCursor(events, scope.revision, route)) == After(later, scope, 0)
  {
    var cursor := PageCursor(events, scope.revision, route);
    assert forall i | 0 <= i < |events| :: (events + later)[i] == events[i];
    assert forall i | 0 <= i < |later| :: (events + later)[|events| + i] == later[i];
    NothingAfterPage(events, scope, route);
    AfterAppended(events, later, scope, cursor);
    AllAreLater(later, scope, cursor, 0);
  }

  // ------------------------------------------------------ the subscription

  class EventSubscription {
    const scope: Scope
    var cursor: int
    var closed: bool
    /** No poll, one waiting for its listing, or one whose listing has arrived. */
    var poll: Poll
    /** The events that reached the response, in order. */
    var written: seq<Event>

    function Value(events: seq<Event>, start: int): Feed
      reads this
    {
      Feed(events, scope, start, cursor, closed, poll, written)
    }

    constructor (events: seq<Event>, scope: Scope, start: int)
      ensures this.scope == scope
      ensures Value(events, start) == Subscribe(events, scope, start)
    {
      this.scope := scope;
      cursor, closed, poll, written := start, false, Requested(start), [];
    }

    method CloseSubscription()
      modifies this
      ensures closed && cursor == old(cursor) && poll == old(poll) && written == old(written)
    {
      if closed {
        return;
      }
      closed := true;
    }

    method StartPoll(ghost events: seq<Event>, ghost start: int)
      modifies this
      ensures Value(events, start) == Perform(old(Value(events, start)), BeginPoll)
    {
      if closed || !poll.Idle? {
        return;
      }
      poll := Requested(cursor);
    }

    method ReceiveListing(events: seq<Event>, ghost start: int, limit: nat)
      modifies this
      ensures Value(events, start) == Perform(old(Value(events, start)), Fetch(limit))
    {
      if poll.Requested? {
        poll := Fetched(ListEvents(events, scope, poll.cursor, limit));
      }
    }

    method WriteEventChunk(event: Event, chunk: Chunk) returns (ok: bool)
      modifies this
      ensures ok == (!old(closed) && chunk.Taken?)
      ensures closed == (old(closed) || chunk.Overfull?)
      ensures written == old(written) + if old(closed) || chunk.Destroyed? then [] else [event]
      ensures cursor == old(cursor) && poll == old(poll)
    {
      if closed || chunk.Destroyed? {
        return false;
      }
      written := written + [event];
      if chunk.Taken? {
        return true;
      }
      CloseSubscription();
      return false;
    }

    /** The write loop; it stops at the first chunk that is not taken. */
    method WriteBatch(ghost events: seq<Event>, ghost start: int, batch: seq<Event>, chunks: seq<Chunk>)
      requires |chunks| == |batch|
      modifies this
      ensures Value(events, start) == WriteEvents(old(Value(events, start)), batch, chunks)
    {
      var i := 0;
      while i < |batch|
        invariant 0 <= i <= |batch|
        invariant WriteEvents(old(Value(events, start)), batch, chunks)
                  == WriteEvents(Value(events, start), batch[i..], chunks[i..])
      {
        var ok := WriteEventChunk(batch[i], chunks[i]);
        if !ok {
          return;
        }
        cursor := batch[i].id;
        assert batch[i..][1..] == batch[i + 1..] && chunks[i..][1..] == chunks[i + 1..];
        i := i + 1;
      }
    }

    method FinishPoll(ghost events: seq<Event>, ghost start: int, chunks: seq<Chunk>)
      requires poll.Fetched? && |chunks| == |poll.batch|
      modifies this
      ensures Value(events, start) == Perform(old(Value(events, start)), Deliver(chunks))
    {
      WriteBatch(events, start, poll.batch, chunks);
      poll := Idle;
    }
  }
}
