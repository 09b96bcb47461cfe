/**
 The sender's half of flow control: connection credit, one credit per open
 stream, and the queue of `take` requests parked until both have bytes.

 A promise becomes an entry of a log: `Granted` for resolve, `Rejected` for
 reject. Requests carry a ticket, the number of requests accepted before them.
 */
module FlowWindow {
  import opened Sums

  type StreamId = int

  datatype Credit = Credit(available: nat, outstanding: nat)

  datatype Waiter = Waiter(ticket: nat, streamId: StreamId, maximumBytes: nat)

  datatype Refusal = StreamGone | ConnectionGone

  datatype Outcome =
    | Granted(waiter: Waiter, bytes: nat)
    | Rejected(waiter: Waiter, refusal: Refusal)

  datatype Window = Window(
    initial: nat,
    connection: nat,
    streams: map<StreamId, Credit>,
    waiters: seq<Waiter>,
    closed: bool,
    issued: nat)

  datatype Status =
    | Done
    | NotPositive
    | WindowClosed
    | StreamExists
    | StreamMissing
    | ExceedsOutstanding
    | ExceedsConnection

  datatype Served = Served(window: Window, log: seq<Outcome>)

  datatype Effect = Effect(status: Status, window: Window, log: seq<Outcome>)

  datatype Op =
    | OpenStream(streamId: StreamId, initialBytes: int)
    | Take(streamId: StreamId, maximum: int)
    | Update(streamId: StreamId, bytes: int)
    | CloseStream(streamId: StreamId)
    | Close

  // ---------------------------------------------------------------- model

  function Fresh(initialConnectionBytes: nat): Window {
    Window(initialConnectionBytes, initialConnectionBytes, map[], [], false, 0)
  }

  function Min(a: nat, b: nat): nat {
    if a <= b then a else b
  }

  function RemoveAt<T>(s: seq<T>, index: nat): seq<T>
    requires index < |s|
  {
    s[..index] + s[index + 1..]
  }

  function Grantable(w: Window, waiter: Waiter): nat
    requires waiter.streamId in w.streams
  {
    Min(waiter.maximumBytes, Min(w.streams[waiter.streamId].available, w.connection))
  }

  function Spend(w: Window, streamId: StreamId, bytes: nat): Window
    requires streamId in w.streams
    requires bytes <= w.streams[streamId].available && bytes <= w.connection
  {
    var credit := w.streams[streamId];
    w.(streams := w.streams[streamId := Credit(credit.available - bytes, credit.outstanding + bytes)],
       connection := w.connection - bytes)
  }

  function Refill(w: Window, streamId: StreamId, bytes: nat): Window
    requires streamId in w.streams && bytes <= w.streams[streamId].outstanding
  {
    var credit := w.streams[streamId];
    w.(streams := w.streams[streamId := Credit(credit.available + bytes, credit.outstanding - bytes)],
       connection := w.connection + bytes)
  }

  /** One pass over the queue from `index`, granting what both credits allow. */
  function Drain(w: Window, index: nat): Served
    requires index <= |w.waiters|
    decreases |w.waiters| - index
  {
    if index == |w.waiters| then
      Served(w, [])
    else
      var waiter := w.waiters[index];
      var rest := RemoveAt(w.waiters, index);
      if waiter.streamId !in w.streams then
        var next := Drain(w.(waiters := rest), index);
        Served(next.window, [Rejected(waiter, StreamGone)] + next.log)
      else
        var granted := Grantable(w, waiter);
        if granted == 0 then
          Drain(w, index + 1)
        else
          var next := Drain(Spend(w, waiter.streamId, granted).(waiters := rest), index);
          Served(next.window, [Granted(waiter, granted)] + next.log)
  }

  function Finish(w: Window, log: seq<Outcome>): Effect {
    var served := Drain(w, 0);
    Effect(Done, served.window, log + served.log)
  }

  /** Requests of other streams, in queue order. */
  function Kept(waiters: seq<Waiter>, streamId: StreamId): seq<Waiter> {
    if waiters == [] then []
    else (if waiters[0].streamId == streamId then [] else [waiters[0]]) + Kept(waiters[1..], streamId)
  }

  /** Requests of the stream, rejected from the back of the queue. */
  function RejectedBackwards(waiters: seq<Waiter>, streamId: StreamId): seq<Outcome> {
    if waiters == [] then []
    else RejectedBackwards(waiters[1..], streamId)
         + (if waiters[0].streamId == streamId then [Rejected(waiters[0], StreamGone)] else [])
  }

  function RejectedAll(waiters: seq<Waiter>): seq<Outcome> {
    seq(|waiters|, i requires 0 <= i < |waiters| => Rejected(waiters[i], ConnectionGone))
  }

  /** An operation up to the point where it looks at the queue. */
  datatype Prepared =
    | Stop(status: Status, window: Window, log: seq<Outcome>)
    | Serve(window: Window, log: seq<Outcome>)

  function Prepare(w: Window, op: Op): Prepared {
    match op
    case OpenStream(streamId, initialBytes) =>
      if streamId <= 0 || initialBytes <= 0 then Stop(NotPositive, w, [])
      else if w.closed then Stop(WindowClosed, w, [])
      else if streamId in w.streams then Stop(StreamExists, w, [])
      else Serve(w.(streams := w.streams[streamId := Credit(initialBytes, 0)]), [])
    case Take(streamId, maximum) =>
      if maximum <= 0 then Stop(NotPositive, w, [])
      else if w.closed then Stop(WindowClosed, w, [])
      else if streamId !in w.streams then Stop(StreamMissing, w, [])
      else Serve(w.(waiters := w.waiters + [Waiter(w.issued, streamId, maximum)], issued := w.issued + 1), [])
    case Update(streamId, bytes) =>
      if bytes <= 0 then Stop(NotPositive, w, [])
      else if streamId !in w.streams then Stop(StreamMissing, w, [])
      else if bytes > w.streams[streamId].outstanding then Stop(ExceedsOutstanding, w, [])
      else
        var refilled := Refill(w, streamId, bytes);
        if refilled.connection > w.initial then Stop(ExceedsConnection, refilled, [])
        else Serve(refilled, [])
    case CloseStream(streamId) =>
      if streamId !in w.streams then Stop(Done, w, [])
      else
        Serve(w.(streams := w.streams - {streamId},
                 connection := w.connection + w.streams[streamId].outstanding,
                 waiters := Kept(w.waiters, streamId)),
              RejectedBackwards(w.waiters, streamId))
    case Close =>
      Stop(Done, w.(closed := true, streams := map[], waiters := []), RejectedAll(w.waiters))
  }

  function Apply(w: Window, op: Op): Effect {
    match Prepare(w, op)
    case Stop(status, stopped, log) => Effect(status, stopped, log)
    case Serve(ready, log) => Finish(ready, log)
  }

  // ----------------------------------------------------------- invariants

  ghost function Outstanding(streams: map<StreamId, Credit>): map<StreamId, nat> {
    map s | s in streams :: streams[s].outstanding
  }

  ghost predicate Starved(w: Window, waiter: Waiter) {
    && waiter.streamId in w.streams
    && (w.streams[waiter.streamId].available == 0 || w.connection == 0)
  }

  ghost predicate StarvedBefore(w: Window, index: nat)
    requires index <= |w.waiters|
  {
    forall i | 0 <= i < index :: Starved(w, w.waiters[i])
  }

  /** No parked request could be granted a byte, and each one's stream is open. */
  ghost predicate Settled(w: Window) {
    StarvedBefore(w, |w.waiters|)
  }

  ghost predicate Queued(w: Window) {
    && (forall i | 0 <= i < |w.waiters| :: w.waiters[i].ticket < w.issued && w.waiters[i].maximumBytes > 0)
    && Rising(w.waiters)
  }

  /** Connection credit plus everything outstanding is the initial window, and so for each stream. */
  ghost predicate Conserved(w: Window, windows: map<StreamId, nat>) {
    && (w.closed ==> w.streams == map[])
    && (!w.closed ==> w.connection + Sum(Outstanding(w.streams)) == w.initial)
    && (forall s | s in w.streams ::
          s in windows && w.streams[s].available + w.streams[s].outstanding == windows[s])
  }

  ghost predicate Valid(w: Window, windows: map<StreamId, nat>) {
    Queued(w) && Settled(w) && Conserved(w, windows)
  }

  // ------------------------------------------------------------ the drain

  lemma SpendConserves(w: Window, windows: map<StreamId, nat>, streamId: StreamId, bytes: nat)
    requires Conserved(w, windows)
    requires streamId in w.streams
    requires bytes <= w.streams[streamId].available && bytes <= w.connection
    ensures Conserved(Spend(w, streamId, bytes), windows)
  {
    var before := Outstanding(w.streams);
    var after := Outstanding(Spend(w, streamId, bytes).streams);
    assert after == before[streamId := w.streams[streamId].outstanding + bytes];
    SumOfUpdate(before, streamId, w.streams[streamId].outstanding + bytes);
  }

  /** What a drain may change: credit only moves from available to outstanding. */
  ghost predicate DrainsTo(w: Window, after: Window) {
    && after.initial == w.initial
    && after.closed == w.closed
    && after.issued == w.issued
    && after.connection <= w.connection
    && after.streams.Keys == w.streams.Keys
    && (forall s | s in w.streams :: after.streams[s].available <= w.streams[s].available)
    && (forall v | v in after.waiters :: v in w.waiters)
  }

  lemma {:induction false} DrainFrame(w: Window, index: nat)
    requires index <= |w.waiters|
    ensures DrainsTo(w, Drain(w, index).window)
    decreases |w.waiters| - index
  {
    if index < |w.waiters| {
      var waiter := w.waiters[index];
      var rest := RemoveAt(w.waiters, index);
      if waiter.streamId !in w.streams {
        DrainFrame(w.(waiters := rest), index);
      } else {
        var granted := Grantable(w, waiter);
        if granted == 0 {
          DrainFrame(w, index + 1);
        } else {
          DrainFrame(Spend(w, waiter.streamId, granted).(waiters := rest), index);
        }
      }
    }
  }

  lemma {:induction false} DrainConserves(w: Window, windows: map<StreamId, nat>, index: nat)
    requires index <= |w.waiters|
    requires Conserved(w, windows)
    ensures Conserved(Drain(w, index).window, windows)
    decreases |w.waiters| - index
  {
    if index < |w.waiters| {
      var waiter := w.waiters[index];
      var rest := RemoveAt(w.waiters, index);
      if waiter.streamId !in w.streams {
        DrainConserves(w.(waiters := rest), windows, index);
      } else {
        var granted := Grantable(w, waiter);
        if granted == 0 {
          DrainConserves(w, windows, index + 1);
        } else {
          SpendConserves(w, windows, waiter.streamId, granted);
          DrainConserves(Spend(w, waiter.streamId, granted).(waiters := rest), windows, index);
        }
      }
    }
  }

  /** Requests already passed over stay starved when someone behind them is served. */
  lemma StarvationPersists(w: Window, index: nat, granted: nat)
    requires index < |w.waiters|
    requires StarvedBefore(w, index)
    requires w.waiters[index].streamId in w.streams
    requires granted == Grantable(w, w.waiters[index])
    ensures StarvedBefore(Spend(w, w.waiters[index].streamId, granted).(waiters := RemoveAt(w.waiters, index)), index)
  {
  }

  lemma ShorterQueueIsQueued(w: Window, index: nat, inner: Window)
    requires Queued(w) && index < |w.waiters|
    requires inner.waiters == RemoveAt(w.waiters, index) && inner.issued == w.issued
    ensures Queued(inner)
  {
  }

  lemma StarvationOutlastsRemoval(w: Window, index: nat)
    requires index < |w.waiters| && StarvedBefore(w, index)
    ensures StarvedBefore(w.(waiters := RemoveAt(w.waiters, index)), index)
  {
  }

  lemma {:induction false} DrainSettles(w: Window, index: nat)
    requires index <= |w.waiters|
    requires Queued(w) && StarvedBefore(w, index)
    ensures Queued(Drain(w, index).window) && Settled(Drain(w, index).window)
    decreases |w.waiters| - index
  {
    if index < |w.waiters| {
      var waiter := w.waiters[index];
      var rest := RemoveAt(w.waiters, index);
      if waiter.streamId !in w.streams {
        ShorterQueueIsQueued(w, index, w.(waiters := rest));
        StarvationOutlastsRemoval(w, index);
        DrainSettles(w.(waiters := rest), index);
      } else {
        var granted := Grantable(w, waiter);
        if granted == 0 {
          DrainSettles(w, index + 1);
        } else {
          var inner := Spend(w, waiter.streamId, granted).(waiters := rest);
          ShorterQueueIsQueued(w, index, inner);
          StarvationPersists(w, index, granted);
          DrainSettles(inner, index);
        }
      }
    }
  }

  /** A request still parked although a later one was served has a stream without credit. */
  ghost predicate OvertakenOnlyWhenStarved(after: Window, log: seq<Outcome>) {
    forall i, v | 0 <= i < |log| && log[i].Granted? && v in after.waiters && v.ticket < log[i].waiter.ticket ::
      v.streamId in after.streams && after.streams[v.streamId].available == 0
  }

  /** Requests of one stream are served in the order they were made. */
  ghost predicate ServedBeforeParked(after: Window, log: seq<Outcome>) {
    forall i, v | 0 <= i < |log| && v in after.waiters && v.streamId == log[i].waiter.streamId ::
      log[i].waiter.ticket < v.ticket
  }

  ghost predicate TicketsRise(log: seq<Outcome>) {
    forall i, j | 0 <= i < j < |log| :: log[i].waiter.ticket < log[j].waiter.ticket
  }

  ghost predicate From(waiters: seq<Waiter>, index: nat, log: seq<Outcome>) {
    forall i | 0 <= i < |log| :: QueuedFrom(waiters, index, log[i].waiter)
  }

  ghost predicate QueuedFrom(waiters: seq<Waiter>, index: nat, v: Waiter) {
    exists j :: index <= j < |waiters| && waiters[j] == v
  }

  lemma {:induction false} DrainOrder(w: Window, index: nat)
    requires index <= |w.waiters|
    requires Queued(w) && StarvedBefore(w, index)
    ensures OvertakenOnlyWhenStarved(Drain(w, index).window, Drain(w, index).log)
    ensures ServedBeforeParked(Drain(w, index).window, Drain(w, index).log)
    ensures TicketsRise(Drain(w, index).log)
    ensures From(w.waiters, index, Drain(w, index).log)
    decreases |w.waiters| - index
  {
    if index < |w.waiters| {
      var waiter := w.waiters[index];
      var rest := RemoveAt(w.waiters, index);
      if waiter.streamId in w.streams && Grantable(w, waiter) == 0 {
        DrainOrder(w, index + 1);
      } else {
        var inner := w.(waiters := rest);
        if waiter.streamId in w.streams {
          StarvationPersists(w, index, Grantable(w, waiter));
          inner := Spend(w, waiter.streamId, Grantable(w, waiter)).(waiters := rest);
        } else {
          StarvationOutlastsRemoval(w, index);
        }
        ShorterQueueIsQueued(w, index, inner);
        DrainOrder(inner, index);
        DrainFrame(inner, index);
        var next := Drain(inner, index);
        var head :=
          if waiter.streamId in w.streams then Granted(waiter, Grantable(w, waiter)) else Rejected(waiter, StreamGone);
        HeadOrder(w, inner, index, next.window, head, next.log);
      }
    }
  }

  /** The step of DrainOrder that puts the request at `index` in front of the log. */
  lemma HeadOrder(w: Window, inner: Window, index: nat, after: Window, head: Outcome, log: seq<Outcome>)
    requires index < |w.waiters|
    requires Queued(w) && StarvedBefore(w, index)
    requires inner.waiters == RemoveAt(w.waiters, index) && inner.streams.Keys == w.streams.Keys
    requires head.waiter == w.waiters[index]
    requires head.Granted? ==> head.waiter.streamId in w.streams && Grantable(w, head.waiter) > 0
    requires head.Rejected? ==> head.waiter.streamId !in w.streams
    requires forall s | s in w.streams :: inner.streams[s].available <= w.streams[s].available
    requires DrainsTo(inner, after)
    requires OvertakenOnlyWhenStarved(after, log) && ServedBeforeParked(after, log) && TicketsRise(log)
    requires From(inner.waiters, index, log)
    ensures OvertakenOnlyWhenStarved(after, [head] + log)
    ensures ServedBeforeParked(after, [head] + log)
    ensures TicketsRise([head] + log)
    ensures From(w.waiters, index, [head] + log)
  {
    HeadIsOldest(w, inner, index, head, log);
    forall v | v in after.waiters
      ensures v.streamId == head.waiter.streamId ==> head.waiter.ticket < v.ticket
      ensures head.Granted? && v.ticket < head.waiter.ticket ==>
                v.streamId in after.streams && after.streams[v.streamId].available == 0
    {
      PassedOver(w, inner, index, after, head, v);
    }
  }

  lemma HeadIsOldest(w: Window, inner: Window, index: nat, head: Outcome, log: seq<Outcome>)
    requires index < |w.waiters| && Rising(w.waiters)
    requires inner.waiters == RemoveAt(w.waiters, index)
    requires head.waiter == w.waiters[index]
    requires From(inner.waiters, index, log) && TicketsRise(log)
    ensures TicketsRise([head] + log)
    ensures From(w.waiters, index, [head] + log)
  {
    forall i | 0 <= i < |log|
      ensures head.waiter.ticket < log[i].waiter.ticket
      ensures QueuedFrom(w.waiters, index, log[i].waiter)
    {
      assert QueuedFrom(inner.waiters, index, log[i].waiter);
      var j :| index <= j < |inner.waiters| && inner.waiters[j] == log[i].waiter;
      assert w.waiters[j + 1] == log[i].waiter;
    }
  }

  /** A parked request with an older ticket was passed over for want of stream credit. */
  lemma PassedOver(w: Window, inner: Window, index: nat, after: Window, head: Outcome, v: Waiter)
    requires index < |w.waiters|
    requires Queued(w) && StarvedBefore(w, index)
    requires inner.waiters == RemoveAt(w.waiters, index) && inner.streams.Keys == w.streams.Keys
    requires head.waiter == w.waiters[index]
    requires head.Granted? ==> head.waiter.streamId in w.streams && Grantable(w, head.waiter) > 0
    requires head.Rejected? ==> head.waiter.streamId !in w.streams
    requires forall s | s in w.streams :: inner.streams[s].available <= w.streams[s].available
    requires DrainsTo(inner, after)
    requires v in after.waiters
    ensures v.streamId == head.waiter.streamId ==> head.waiter.ticket < v.ticket
    ensures head.Granted? && v.ticket < head.waiter.ticket ==>
              v.streamId in after.streams && after.streams[v.streamId].available == 0
  {
    var k :| 0 <= k < |inner.waiters| && inner.waiters[k] == v;
    if k < index {
      assert v == w.waiters[k] && Starved(w, v);
    } else {
      assert v == w.waiters[k + 1];
    }
  }

  // --------------------------------------- every request is answered once

  ghost function Resolved(log: seq<Outcome>): multiset<Waiter> {
    if log == [] then multiset{} else multiset{log[0].waiter} + Resolved(log[1..])
  }

  lemma {:induction false} ResolvedOfConcat(a: seq<Outcome>, b: seq<Outcome>)
    ensures Resolved(a + b) == Resolved(a) + Resolved(b)
  {
    if a == [] {
      assert a + b == b;
    } else {
      assert (a + b)[1..] == a[1..] + b;
      ResolvedOfConcat(a[1..], b);
    }
  }

  lemma RemoveAtMultiset(waiters: seq<Waiter>, index: nat)
    requires index < |waiters|
    ensures multiset(waiters) == multiset(RemoveAt(waiters, index)) + multiset{waiters[index]}
  {
    assert waiters == waiters[..index] + [waiters[index]] + waiters[index + 1..];
  }

  lemma HeadMultiset(waiters: seq<Waiter>)
    requires waiters != []
    ensures multiset(waiters) == multiset{waiters[0]} + multiset(waiters[1..])
  {
    assert waiters == [waiters[0]] + waiters[1..];
  }

  lemma ResolvedOfOne(outcome: Outcome)
    ensures Resolved([outcome]) == multiset{outcome.waiter}
  {
  }

  lemma {:induction false} DrainAccounts(w: Window, index: nat)
    requires index <= |w.waiters|
    ensures multiset(w.waiters) == multiset(Drain(w, index).window.waiters) + Resolved(Drain(w, index).log)
    decreases |w.waiters| - index
  {
    if index < |w.waiters| {
      var waiter := w.waiters[index];
      var rest := RemoveAt(w.waiters, index);
      if waiter.streamId in w.streams && Grantable(w, waiter) == 0 {
        DrainAccounts(w, index + 1);
      } else {
        var inner := if waiter.streamId in w.streams
                     then Spend(w, waiter.streamId, Grantable(w, waiter)).(waiters := rest)
                     else w.(waiters := rest);
        var head := if waiter.streamId in w.streams
                    then Granted(waiter, Grantable(w, waiter)) else Rejected(waiter, StreamGone);
        DrainAccounts(inner, index);
        assert Drain(w, index) == Served(Drain(inner, index).window, [head] + Drain(inner, index).log);
        OneMoreAnswered(w.waiters, index, Drain(inner, index).window.waiters, head, Drain(inner, index).log);
      }
    }
  }

  lemma OneMoreAnswered(waiters: seq<Waiter>, index: nat, after: seq<Waiter>, head: Outcome, log: seq<Outcome>)
    requires index < |waiters| && head.waiter == waiters[index]
    requires multiset(RemoveAt(waiters, index)) == multiset(after) + Resolved(log)
    ensures multiset(waiters) == multiset(after) + Resolved([head] + log)
  {
    RemoveAtMultiset(waiters, index);
    ResolvedOfConcat([head], log);
    ResolvedOfOne(head);
  }

  lemma {:induction false} KeptAccounts(waiters: seq<Waiter>, streamId: StreamId)
    ensures multiset(waiters) == multiset(Kept(waiters, streamId)) + Resolved(RejectedBackwards(waiters, streamId))
  {
    if waiters != [] {
      HeadMultiset(waiters);
      KeptAccounts(waiters[1..], streamId);
      if waiters[0].streamId == streamId {
        RejectedHead(waiters, streamId);
      } else {
        KeptHead(waiters, streamId);
      }
    }
  }

  lemma RejectedHead(waiters: seq<Waiter>, streamId: StreamId)
    requires waiters != [] && waiters[0].streamId == streamId
    ensures Resolved(RejectedBackwards(waiters, streamId))
            == Resolved(RejectedBackwards(waiters[1..], streamId)) + multiset{waiters[0]}
    ensures Kept(waiters, streamId) == Kept(waiters[1..], streamId)
  {
    var tail := RejectedBackwards(waiters[1..], streamId);
    var head := Rejected(waiters[0], StreamGone);
    ResolvedOfConcat(tail, [head]);
    ResolvedOfOne(head);
    assert RejectedBackwards(waiters, streamId) == tail + [head];
  }

  lemma KeptHead(waiters: seq<Waiter>, streamId: StreamId)
    requires waiters != [] && waiters[0].streamId != streamId
    ensures multiset(Kept(waiters, streamId)) == multiset{waiters[0]} + multiset(Kept(waiters[1..], streamId))
    ensures RejectedBackwards(waiters, streamId) == RejectedBackwards(waiters[1..], streamId)
  {
    var kept := Kept(waiters, streamId);
    assert kept[0] == waiters[0] && kept[1..] == Kept(waiters[1..], streamId);
    HeadMultiset(kept);
  }

  lemma {:induction false} KeptMembers(waiters: seq<Waiter>, streamId: StreamId)
    ensures forall v | v in Kept(waiters, streamId) :: v in waiters && v.streamId != streamId
    ensures forall o | o in RejectedBackwards(waiters, streamId) :: o.Rejected? && o.waiter in waiters
  {
    if waiters != [] {
      KeptMembers(waiters[1..], streamId);
    }
  }

  ghost predicate Rising(waiters: seq<Waiter>) {
    forall i, j | 0 <= i < j < |waiters| :: waiters[i].ticket < waiters[j].ticket
  }

  lemma {:induction false} KeptStaysRising(waiters: seq<Waiter>, streamId: StreamId)
    requires Rising(waiters)
    ensures Rising(Kept(waiters, streamId))
  {
    if waiters != [] {
      var tail := Kept(waiters[1..], streamId);
      KeptStaysRising(waiters[1..], streamId);
      KeptMembers(waiters[1..], streamId);
      if waiters[0].streamId == streamId {
        assert Kept(waiters, streamId) == tail;
      } else {
        assert Kept(waiters, streamId) == [waiters[0]] + tail;
        forall j | 0 <= j < |tail| ensures waiters[0].ticket < tail[j].ticket {
          assert tail[j] in waiters[1..];
        }
      }
    }
  }

  lemma RejectedAllHead(waiters: seq<Waiter>)
    requires waiters != []
    ensures Resolved(RejectedAll(waiters)) == multiset{waiters[0]} + Resolved(RejectedAll(waiters[1..]))
  {
    var log := RejectedAll(waiters);
    assert log[0].waiter == waiters[0] && log[1..] == RejectedAll(waiters[1..]);
  }

  lemma {:induction false} RejectedAllAccounts(waiters: seq<Waiter>)
    ensures Resolved(RejectedAll(waiters)) == multiset(waiters)
  {
    if waiters != [] {
      RejectedAllAccounts(waiters[1..]);
      HeadMultiset(waiters);
      RejectedAllHead(waiters);
    }
  }

  // -------------------------------------------------- one public operation

  /** The initial window each stream was last opened with. */
  function Opened(windows: map<StreamId, nat>, w: Window, op: Op): map<StreamId, nat> {
    if op.OpenStream? && op.streamId > 0 && op.initialBytes > 0 && !w.closed && op.streamId !in w.streams
    then windows[op.streamId := op.initialBytes]
    else windows
  }

  lemma FinishIsValid(w: Window, windows: map<StreamId, nat>, log: seq<Outcome>)
    requires Queued(w) && Conserved(w, windows)
    ensures Valid(Finish(w, log).window, windows)
  {
    DrainSettles(w, 0);
    DrainConserves(w, windows, 0);
  }

  lemma OpeningConserves(w: Window, windows: map<StreamId, nat>, s: StreamId, bytes: nat)
    requires Conserved(w, windows) && !w.closed && s !in w.streams
    ensures Conserved(w.(streams := w.streams[s := Credit(bytes, 0)]), windows[s := bytes])
  {
    var before := Outstanding(w.streams);
    assert Outstanding(w.streams[s := Credit(bytes, 0)]) == before[s := 0];
    SumOfUpdate(before, s, 0);
  }

  lemma RefillingConserves(w: Window, windows: map<StreamId, nat>, s: StreamId, bytes: nat)
    requires Conserved(w, windows) && s in w.streams && bytes <= w.streams[s].outstanding
    ensures Conserved(Refill(w, s, bytes), windows)
  {
    var before := Outstanding(w.streams);
    var credit := w.streams[s];
    assert Outstanding(Refill(w, s, bytes).streams) == before[s := credit.outstanding - bytes];
    SumOfUpdate(before, s, credit.outstanding - bytes);
  }

  lemma ClosingConserves(w: Window, windows: map<StreamId, nat>, s: StreamId)
    requires Conserved(w, windows) && s in w.streams
    ensures Conserved(w.(streams := w.streams - {s}, connection := w.connection + w.streams[s].outstanding), windows)
  {
    var before := Outstanding(w.streams);
    assert Outstanding(w.streams - {s}) == before - {s};
    SumTakesAnyKey(before, s);
  }

  /** Before the queue is served, credit is already conserved; refilling never exceeds the initial window. */
  lemma PrepareKeepsCredit(w: Window, windows: map<StreamId, nat>, op: Op)
    requires Queued(w) && Conserved(w, windows)
    ensures var p := Prepare(w, op);
            && (p.Stop? ==> p.status != ExceedsConnection)
            && Queued(p.window)
            && Conserved(p.window, Opened(windows, w, op))
  {
    match op {
      case OpenStream(s, bytes) =>
        if s > 0 && bytes > 0 && !w.closed && s !in w.streams {
          OpeningConserves(w, windows, s, bytes);
        }
      case Take(s, maximum) =>
      case Update(s, bytes) =>
        if bytes > 0 && s in w.streams && bytes <= w.streams[s].outstanding {
          RefillingConserves(w, windows, s, bytes);
        }
      case CloseStream(s) =>
        if s in w.streams {
          ClosingConserves(w, windows, s);
          QueueAfterClosing(w, s);
        }
      case Close =>
    }
  }

  lemma QueueAfterClosing(w: Window, s: StreamId)
    requires Queued(w)
    ensures Queued(w.(waiters := Kept(w.waiters, s)))
  {
    KeptMembers(w.waiters, s);
    KeptStaysRising(w.waiters, s);
    var kept := Kept(w.waiters, s);
    forall i | 0 <= i < |kept| ensures kept[i].ticket < w.issued && kept[i].maximumBytes > 0 {
      assert kept[i] in w.waiters;
    }
  }

  /** Every public operation keeps the invariant, and refilling never exceeds the initial window. */
  lemma ApplyKeepsValid(w: Window, windows: map<StreamId, nat>, op: Op)
    requires Valid(w, windows)
    ensures Valid(Apply(w, op).window, Opened(windows, w, op))
    ensures Apply(w, op).status != ExceedsConnection
  {
    PrepareKeepsCredit(w, windows, op);
    match Prepare(w, op) {
      case Stop(_, stopped, _) => assert stopped == w || stopped.waiters == [];
      case Serve(ready, log) => FinishIsValid(ready, Opened(windows, w, op), log);
    }
  }

  function Requested(w: Window, op: Op): seq<Waiter> {
    if op.Take? && op.maximum > 0 && !w.closed && op.streamId in w.streams
    then [Waiter(w.issued, op.streamId, op.maximum)]
    else []
  }

  /** Parked requests before, and the new one, are the parked requests after and the answered ones. */
  ghost predicate Balanced(before: seq<Waiter>, requested: seq<Waiter>, after: seq<Waiter>, log: seq<Outcome>) {
    multiset(before) + multiset(requested) == multiset(after) + Resolved(log)
  }

  lemma UntouchedIsBalanced(waiters: seq<Waiter>)
    ensures Balanced(waiters, [], waiters, [])
  {
  }

  lemma TakingIsBalanced(waiters: seq<Waiter>, waiter: Waiter)
    ensures Balanced(waiters, [waiter], waiters + [waiter], [])
  {
  }

  lemma ClosingIsBalanced(waiters: seq<Waiter>, s: StreamId)
    ensures Balanced(waiters, [], Kept(waiters, s), RejectedBackwards(waiters, s))
  {
    KeptAccounts(waiters, s);
  }

  lemma ClosingAllIsBalanced(waiters: seq<Waiter>)
    ensures Balanced(waiters, [], [], RejectedAll(waiters))
  {
    RejectedAllAccounts(waiters);
  }

  lemma PrepareIsBalanced(w: Window, op: Op)
    ensures Balanced(w.waiters, Requested(w, op), Prepare(w, op).window.waiters, Prepare(w, op).log)
    ensures Prepare(w, op).window.issued == w.issued + |Requested(w, op)|
  {
    if op.Take? && Requested(w, op) != [] {
      TakingIsBalanced(w.waiters, Requested(w, op)[0]);
    } else if op.CloseStream? && op.streamId in w.streams {
      ClosingIsBalanced(w.waiters, op.streamId);
    } else if op.Close? {
      ClosingAllIsBalanced(w.waiters);
    } else {
      assert Prepare(w, op).window.waiters == w.waiters && Prepare(w, op).log == [];
      UntouchedIsBalanced(w.waiters);
    }
  }

  /** One operation neither loses nor duplicates a request. */
  lemma ApplyIsBalanced(w: Window, op: Op)
    ensures Balanced(w.waiters, Requested(w, op), Apply(w, op).window.waiters, Apply(w, op).log)
    ensures Apply(w, op).window.issued == w.issued + |Requested(w, op)|
  {
    PrepareIsBalanced(w, op);
    match Prepare(w, op) {
      case Stop(_, _, _) =>
      case Serve(ready, log) => FinishIsBalanced(w.waiters, Requested(w, op), ready, log);
    }
  }

  lemma FinishIsBalanced(before: seq<Waiter>, requested: seq<Waiter>, w: Window, log: seq<Outcome>)
    requires Balanced(before, requested, w.waiters, log)
    ensures Balanced(before, requested, Finish(w, log).window.waiters, Finish(w, log).log)
    ensures Finish(w, log).window.issued == w.issued
  {
    DrainAccounts(w, 0);
    DrainFrame(w, 0);
    ResolvedOfConcat(log, Drain(w, 0).log);
  }

  // ------------------------------------------------------------ whole runs

  /** A window together with what its callers have seen so far. */
  datatype History = History(window: Window, windows: map<StreamId, nat>, requests: seq<Waiter>, log: seq<Outcome>)

  function Start(initialConnectionBytes: nat): History {
    History(Fresh(initialConnectionBytes), map[], [], [])
  }

  function Perform(h: History, op: Op): History {
    var effect := Apply(h.window, op);
    History(effect.window, Opened(h.windows, h.window, op), h.requests + Requested(h.window, op), h.log + effect.log)
  }

  function Run(h: History, ops: seq<Op>): History
    decreases |ops|
  {
    if ops == [] then h else Run(Perform(h, ops[0]), ops[1..])
  }

  ghost predicate GrantsFollowRequests(log: seq<Outcome>) {
    forall i, j | 0 <= i < j < |log| && log[i].Granted? && log[j].Granted?
                  && log[i].waiter.streamId == log[j].waiter.streamId ::
      log[i].waiter.ticket < log[j].waiter.ticket
  }

  ghost predicate GrantsPrecedeParked(w: Window, log: seq<Outcome>) {
    forall i, v | 0 <= i < |log| && log[i].Granted? && v in w.waiters && v.streamId == log[i].waiter.streamId ::
      log[i].waiter.ticket < v.ticket
  }

  /** Each request, known by its ticket, is parked or answered, and only once. */
  ghost predicate Accounted(h: History) {
    && |h.requests| == h.window.issued
    && (forall i | 0 <= i < |h.requests| :: h.requests[i].ticket == i)
    && multiset(h.requests) == multiset(h.window.waiters) + Resolved(h.log)
  }

  ghost predicate Sound(h: History) {
    && Valid(h.window, h.windows)
    && Accounted(h)
    && GrantsFollowRequests(h.log)
    && GrantsPrecedeParked(h.window, h.log)
    && (forall i | 0 <= i < |h.log| :: h.log[i].waiter.ticket < h.window.issued)
  }

  /** How a drain that starts in the middle of an operation orders its grants. */
  lemma FinishOrder(w: Window, log: seq<Outcome>, rejected: seq<Outcome>)
    requires Queued(w)
    requires GrantsFollowRequests(log) && GrantsPrecedeParked(w, log)
    requires forall i | 0 <= i < |rejected| :: rejected[i].Rejected?
    requires forall i | 0 <= i < |log| :: log[i].waiter.ticket < w.issued
    requires forall i | 0 <= i < |rejected| :: rejected[i].waiter.ticket < w.issued
    ensures var e := Finish(w, rejected);
            && OvertakenOnlyWhenStarved(e.window, e.log)
            && GrantsFollowRequests(log + e.log)
            && GrantsPrecedeParked(e.window, log + e.log)
            && e.window.issued == w.issued
            && forall i | 0 <= i < |log + e.log| :: (log + e.log)[i].waiter.ticket < w.issued
  {
    DrainOrder(w, 0);
    DrainFrame(w, 0);
    var served := Drain(w, 0);
    var e := Finish(w, rejected);
    forall i | 0 <= i < |served.log| ensures served.log[i].waiter in w.waiters {
      assert QueuedFrom(w.waiters, 0, served.log[i].waiter);
    }
    GrantsAroundRejections([], rejected, served.log);
    assert e.log == [] + (rejected + served.log);
    ServiceFollows(w, log, rejected, served.log);
    ServicePrecedes(w, served.window, log, rejected, served.log);
  }

  lemma ServiceFollows(w: Window, log: seq<Outcome>, rejected: seq<Outcome>, served: seq<Outcome>)
    requires GrantsFollowRequests(log) && GrantsPrecedeParked(w, log)
    requires forall i | 0 <= i < |rejected| :: rejected[i].Rejected?
    requires TicketsRise(served) && forall i | 0 <= i < |served| :: served[i].waiter in w.waiters
    ensures GrantsFollowRequests(log + (rejected + served))
  {
    GrantsAroundRejections(log, rejected, served);
  }

  lemma ServicePrecedes(w: Window, after: Window, log: seq<Outcome>, rejected: seq<Outcome>, served: seq<Outcome>)
    requires Queued(w) && GrantsPrecedeParked(w, log) && ServedBeforeParked(after, served)
    requires forall v | v in after.waiters :: v in w.waiters
    requires forall i | 0 <= i < |rejected| :: rejected[i].Rejected? && rejected[i].waiter.ticket < w.issued
    requires forall i | 0 <= i < |served| :: served[i].waiter in w.waiters
    requires forall i | 0 <= i < |log| :: log[i].waiter.ticket < w.issued
    ensures var all := log + (rejected + served);
            GrantsPrecedeParked(after, all) && forall i | 0 <= i < |all| :: all[i].waiter.ticket < w.issued
  {
    GrantsAroundRejections(log, rejected, served);
  }

  lemma GrantsAroundRejections(log: seq<Outcome>, rejected: seq<Outcome>, served: seq<Outcome>)
    requires forall i | 0 <= i < |rejected| :: rejected[i].Rejected?
    ensures var all := log + (rejected + served);
            && (forall i | 0 <= i < |rejected + served| && (rejected + served)[i].Granted? ::
                  i >= |rejected| && (rejected + served)[i] == served[i - |rejected|])
            && forall i | 0 <= i < |all| ::
                 || (i < |log| && all[i] == log[i])
                 || (|log| <= i < |log| + |rejected| && all[i] == rejected[i - |log|])
                 || (i >= |log| + |rejected| && all[i] == served[i - |log| - |rejected|])
  {
  }

  lemma PrepareOrder(w: Window, op: Op, log: seq<Outcome>)
    requires Queued(w)
    requires GrantsPrecedeParked(w, log)
    requires forall i | 0 <= i < |log| :: log[i].waiter.ticket < w.issued
    ensures var p := Prepare(w, op);
            p.Serve? ==>
              && Queued(p.window)
              && GrantsPrecedeParked(p.window, log)
              && w.issued <= p.window.issued
              && forall i | 0 <= i < |p.log| :: p.log[i].Rejected? && p.log[i].waiter.ticket < w.issued
  {
    if op.CloseStream? {
      var s := op.streamId;
      KeptMembers(w.waiters, s);
      QueueAfterClosing(w, s);
      var rejected := RejectedBackwards(w.waiters, s);
      forall i | 0 <= i < |rejected| ensures rejected[i].Rejected? && rejected[i].waiter.ticket < w.issued {
        assert rejected[i] in rejected;
      }
    }
  }

  /** An operation that stops grants nothing, and leaves the waiters alone or rejects them all. */
  lemma StopGrantsNothing(w: Window, op: Op)
    requires Queued(w) && Prepare(w, op).Stop?
    ensures var p := Prepare(w, op);
            && p.window.issued == w.issued && (p.window.waiters == w.waiters || p.window.waiters == [])
            && forall i | 0 <= i < |p.log| :: p.log[i].Rejected? && p.log[i].waiter.ticket < w.issued
  {
  }

  lemma StopOrder(w: Window, after: Window, log: seq<Outcome>, rejected: seq<Outcome>)
    requires GrantsFollowRequests(log) && GrantsPrecedeParked(w, log)
    requires after.waiters == w.waiters || after.waiters == []
    requires forall i | 0 <= i < |log| :: log[i].waiter.ticket < w.issued
    requires forall i | 0 <= i < |rejected| :: rejected[i].Rejected? && rejected[i].waiter.ticket < w.issued
    ensures OvertakenOnlyWhenStarved(after, rejected)
    ensures GrantsFollowRequests(log + rejected) && GrantsPrecedeParked(after, log + rejected)
    ensures forall i | 0 <= i < |log + rejected| :: (log + rejected)[i].waiter.ticket < w.issued
  {
    var all := log + rejected;
    assert forall i | 0 <= i < |all| && all[i].Granted? :: i < |log| && all[i] == log[i];
  }

  /** One operation keeps request order, and overtaking needs a stream without credit. */
  lemma ApplyOrder(w: Window, op: Op, log: seq<Outcome>)
    requires Queued(w)
    requires GrantsFollowRequests(log) && GrantsPrecedeParked(w, log)
    requires forall i | 0 <= i < |log| :: log[i].waiter.ticket < w.issued
    ensures var e := Apply(w, op);
            && OvertakenOnlyWhenStarved(e.window, e.log)
            && GrantsFollowRequests(log + e.log)
            && GrantsPrecedeParked(e.window, log + e.log)
            && forall i | 0 <= i < |log + e.log| :: (log + e.log)[i].waiter.ticket < e.window.issued
  {
    match Prepare(w, op) {
      case Stop(_, stopped, rejected) =>
        StopGrantsNothing(w, op);
        StopOrder(w, stopped, log, rejected);
      case Serve(ready, rejected) =>
        PrepareOrder(w, op, log);
        FinishOrder(ready, log, rejected);
    }
  }

  lemma BalanceExtends(requests: seq<Waiter>, requested: seq<Waiter>, before: seq<Waiter>, after: seq<Waiter>,
                       past: seq<Outcome>, log: seq<Outcome>)
    requires multiset(requests) == multiset(before) + Resolved(past)
    requires Balanced(before, requested, after, log)
    ensures multiset(requests + requested) == multiset(after) + Resolved(past + log)
  {
    ResolvedOfConcat(past, log);
    assert multiset(requests + requested) == multiset(requests) + multiset(requested);
    Rearranged(multiset(before), Resolved(past), multiset(requested));
    Rearranged(multiset(after), Resolved(log), Resolved(past));
    assert multiset(after) + (Resolved(past) + Resolved(log)) == multiset(after) + Resolved(past) + Resolved(log);
  }

  lemma Rearranged(a: multiset<Waiter>, b: multiset<Waiter>, c: multiset<Waiter>)
    ensures a + b + c == a + c + b
  {
  }

  lemma PerformAccounts(h: History, op: Op)
    requires Accounted(h)
    ensures Accounted(Perform(h, op))
  {
    var effect := Apply(h.window, op);
    ApplyIsBalanced(h.window, op);
    BalanceExtends(h.requests, Requested(h.window, op), h.window.waiters, effect.window.waiters, h.log, effect.log);
  }

  lemma PerformKeepsSound(h: History, op: Op)
    requires Sound(h)
    ensures Sound(Perform(h, op))
    ensures OvertakenOnlyWhenStarved(Perform(h, op).window, Apply(h.window, op).log)
  {
    ApplyKeepsValid(h.window, h.windows, op);
    PerformAccounts(h, op);
    ApplyOrder(h.window, op, h.log);
  }

  /**
   Whatever the callers do: credit is conserved, no wakeup is lost, every request
   is parked or answered exactly once, and grants on a stream follow request order.
   */
  lemma {:induction false} EveryRunIsSound(h: History, ops: seq<Op>)
    requires Sound(h)
    ensures Sound(Run(h, ops))
    decreases |ops|
  {
    if ops != [] {
      PerformKeepsSound(h, ops[0]);
      EveryRunIsSound(Perform(h, ops[0]), ops[1..]);
    }
  }

  lemma StartIsSound(initialConnectionBytes: nat)
    ensures Sound(Start(initialConnectionBytes))
  {
    assert Outstanding(map[]) == map[];
  }

  /** The error for a connection window above its initial size is unreachable. */
  lemma UpdateNeverExceedsConnection(initialConnectionBytes: nat, ops: seq<Op>, streamId: StreamId, bytes: int)
    ensures Apply(Run(Start(initialConnectionBytes), ops).window, Update(streamId, bytes)).status != ExceedsConnection
  {
    StartIsSound(initialConnectionBytes);
    EveryRunIsSound(Start(initialConnectionBytes), ops);
    var h := Run(Start(initialConnectionBytes), ops);
    ApplyKeepsValid(h.window, h.windows, Update(streamId, bytes));
  }

  /** In every run a later request overtakes an earlier one only past a stream without credit. */
  lemma OvertakingIsBounded(initialConnectionBytes: nat, ops: seq<Op>, op: Op)
    ensures var before := Run(Start(initialConnectionBytes), ops);
            OvertakenOnlyWhenStarved(Perform(before, op).window, Apply(before.window, op).log)
  {
    StartIsSound(initialConnectionBytes);
    EveryRunIsSound(Start(initialConnectionBytes), ops);
    PerformKeepsSound(Run(Start(initialConnectionBytes), ops), op);
  }
}
