/**
 What the sender's window answers, in terms of its credit alone: which operations
 are refused, what every grant amounts to, and where each byte of credit is
 afterwards.
 */
module FlowGrants {
  import opened FlowWindow

  /** Bytes granted on a stream. */
  ghost function Sent(log: seq<Outcome>, s: StreamId): nat {
    if log == [] then 0
    else (if log[0].Granted? && log[0].waiter.streamId == s then log[0].bytes else 0) + Sent(log[1..], s)
  }

  ghost function SentAll(log: seq<Outcome>): nat {
    if log == [] then 0 else (if log[0].Granted? then log[0].bytes else 0) + SentAll(log[1..])
  }

  /** As much as the request, the stream and the connection allow, and not nothing. */
  ghost predicate Largest(bytes: nat, maximum: nat, stream: nat, connection: nat) {
    && 0 < bytes && bytes <= maximum && bytes <= stream && bytes <= connection
    && (bytes == maximum || bytes == stream || bytes == connection)
  }

  /**
   Every grant is the largest that the credit left at that point allows: what was
   left then is what is left now and what has gone out since.
   */
  ghost predicate GrantsLargest(after: Window, log: seq<Outcome>) {
    forall i | 0 <= i < |log| && log[i].Granted? ::
      && log[i].waiter.streamId in after.streams
      && Largest(log[i].bytes, log[i].waiter.maximumBytes,
                 after.streams[log[i].waiter.streamId].available + Sent(log[i..], log[i].waiter.streamId),
                 after.connection + SentAll(log[i..]))
  }

  /** What went out is gone from available credit and is outstanding. */
  ghost predicate Charged(w: Window, after: Window, log: seq<Outcome>) {
    && after.streams.Keys == w.streams.Keys
    && (forall s | s in w.streams ::
          && after.streams[s].available + Sent(log, s) == w.streams[s].available
          && after.streams[s].outstanding == w.streams[s].outstanding + Sent(log, s))
    && after.connection + SentAll(log) == w.connection
  }

  lemma HeadIsLargest(after: Window, head: Outcome, rest: seq<Outcome>)
    requires GrantsLargest(after, rest)
    requires head.Granted? ==>
               && head.waiter.streamId in after.streams
               && Largest(head.bytes, head.waiter.maximumBytes,
                          after.streams[head.waiter.streamId].available + Sent([head] + rest, head.waiter.streamId),
                          after.connection + SentAll([head] + rest))
    ensures GrantsLargest(after, [head] + rest)
  {
    var log := [head] + rest;
    assert log[0..] == log;
    forall i | 0 < i < |log| ensures log[i] == rest[i - 1] && log[i..] == rest[i - 1..] {
    }
  }

  lemma ChargedHead(w: Window, inner: Window, after: Window, head: Outcome, rest: seq<Outcome>)
    requires Charged(inner, after, rest) && inner.streams.Keys == w.streams.Keys
    requires head.Granted? ==>
               && head.waiter.streamId in w.streams
               && head.bytes <= w.streams[head.waiter.streamId].available && head.bytes <= w.connection
               && inner.streams == Spend(w, head.waiter.streamId, head.bytes).streams
               && inner.connection == w.connection - head.bytes
    requires head.Rejected? ==> inner.streams == w.streams && inner.connection == w.connection
    ensures Charged(w, after, [head] + rest)
  {
    var log := [head] + rest;
    assert log[1..] == rest;
  }

  lemma {:induction false} DrainIsLargest(w: Window, index: nat)
    requires index <= |w.waiters|
    ensures Charged(w, Drain(w, index).window, Drain(w, index).log)
    ensures GrantsLargest(Drain(w, index).window, Drain(w, index).log)
    decreases |w.waiters| - index
  {
    if index < |w.waiters| {
      var waiter := w.waiters[index];
      var rest := RemoveAt(w.waiters, index);
      if waiter.streamId !in w.streams {
        var inner := w.(waiters := rest);
        DrainIsLargest(inner, index);
        HeadIsLargest(Drain(inner, index).window, Rejected(waiter, StreamGone), Drain(inner, index).log);
        ChargedHead(w, inner, Drain(inner, index).window, Rejected(waiter, StreamGone), Drain(inner, index).log);
      } else {
        var credit := w.streams[waiter.streamId].available;
        var granted := Min(waiter.maximumBytes, Min(credit, w.connection));
        if granted == 0 {
          DrainIsLargest(w, index + 1);
        } else {
          var inner := Spend(w, waiter.streamId, granted).(waiters := rest);
          var next := Drain(inner, index);
          DrainIsLargest(inner, index);
          ChargedHead(w, inner, next.window, Granted(waiter, granted), next.log);
          HeadIsLargest(next.window, Granted(waiter, granted), next.log);
        }
      }
    }
  }

  lemma {:induction false} SentAfterRejections(rejected: seq<Outcome>, log: seq<Outcome>)
    requires forall i | 0 <= i < |rejected| :: rejected[i].Rejected?
    ensures SentAll(rejected + log) == SentAll(log) && forall s :: Sent(rejected + log, s) == Sent(log, s)
  {
    if rejected == [] {
      assert rejected + log == log;
    } else {
      assert (rejected + log)[1..] == rejected[1..] + log;
      SentAfterRejections(rejected[1..], log);
    }
  }

  lemma LargestAfterRejections(after: Window, rejected: seq<Outcome>, log: seq<Outcome>)
    requires GrantsLargest(after, log) && forall i | 0 <= i < |rejected| :: rejected[i].Rejected?
    ensures GrantsLargest(after, rejected + log)
  {
    var all, k := rejected + log, |rejected|;
    forall i | k <= i < |all| ensures all[i] == log[i - k] && all[i..] == log[i - k..] {
    }
  }

  lemma PreparedRejections(w: Window, op: Op)
    ensures forall i | 0 <= i < |Prepare(w, op).log| :: Prepare(w, op).log[i].Rejected?
  {
    if op.CloseStream? && op.streamId in w.streams {
      KeptMembers(w.waiters, op.streamId);
      var log := Prepare(w, op).log;
      forall i | 0 <= i < |log| ensures log[i].Rejected? {
        assert log[i] in log;
      }
    }
  }

  /** Whatever the operation, every request it grants gets all that its maximum and the credit left then allow. */
  lemma EveryGrantIsLargest(w: Window, op: Op)
    ensures GrantsLargest(Apply(w, op).window, Apply(w, op).log)
  {
    PreparedRejections(w, op);
    match Prepare(w, op) {
      case Stop(_, stopped, rejected) =>
      case Serve(ready, rejected) =>
        DrainIsLargest(ready, 0);
        LargestAfterRejections(Drain(ready, 0).window, rejected, Drain(ready, 0).log);
    }
  }

  // ---------------------------------------------------------------- answers

  ghost predicate Names(w: Window, op: Op) {
    !op.Close? && op.streamId in w.streams
  }

  /** Which operations are refused, and for what; everything else is done. */
  lemma AnswerIsExact(w: Window, op: Op)
    ensures var status := Apply(w, op).status;
            && (status == NotPositive <==> || (op.OpenStream? && (op.streamId <= 0 || op.initialBytes <= 0))
                                           || (op.Take? && op.maximum <= 0) || (op.Update? && op.bytes <= 0))
            && (status == WindowClosed <==>
                  && w.closed && (|| (op.OpenStream? && op.streamId > 0 && op.initialBytes > 0)
                                  || (op.Take? && op.maximum > 0)))
            && (status == StreamExists <==>
                  op.OpenStream? && op.streamId > 0 && op.initialBytes > 0 && !w.closed && Names(w, op))
            && (status == StreamMissing <==>
                  && !Names(w, op) && ((op.Take? && op.maximum > 0 && !w.closed) || (op.Update? && op.bytes > 0)))
            && (status == ExceedsOutstanding <==>
                  op.Update? && op.bytes > 0 && Names(w, op) && op.bytes > w.streams[op.streamId].outstanding)
            && (status == ExceedsConnection <==>
                  && op.Update? && op.bytes > 0 && Names(w, op) && op.bytes <= w.streams[op.streamId].outstanding
                  && w.connection + op.bytes > w.initial)
            && (status != Done && status != ExceedsConnection ==> Apply(w, op) == Effect(status, w, []))
  {
  }

  /** A stream has its own credit or the window it opens with, and what an update returns, less what is granted. */
  ghost predicate StreamCredited(w: Window, op: Op, after: Window, log: seq<Outcome>, s: StreamId)
    requires s in after.streams
  {
    var isNew := op.OpenStream? && op.streamId == s;
    var returned := if op.Update? && op.streamId == s then op.bytes else 0;
    && (!isNew ==> s in w.streams)
    && after.streams[s].available + Sent(log, s)
       == (if isNew then op.initialBytes else w.streams[s].available) + returned
    && after.streams[s].outstanding + returned
       == (if isNew then 0 else w.streams[s].outstanding) + Sent(log, s)
  }

  /** What an operation frees for the connection before anything is granted. */
  ghost function Freed(w: Window, op: Op): int {
    if op.Update? then op.bytes
    else if op.CloseStream? && Names(w, op) then w.streams[op.streamId].outstanding
    else 0
  }

  lemma ReadyIsCredited(w: Window, op: Op)
    requires Prepare(w, op).Serve?
    ensures var ready := Prepare(w, op).window;
            && ready.streams.Keys
               == (if op.OpenStream? then w.streams.Keys + {op.streamId}
                   else if op.CloseStream? then w.streams.Keys - {op.streamId} else w.streams.Keys)
            && (forall s | s in ready.streams :: StreamCredited(w, op, ready, [], s))
            && ready.connection == w.connection + Freed(w, op)
            && ready.initial == w.initial && ready.closed == w.closed
            && ready.issued == w.issued + if op.Take? then 1 else 0
  {
  }

  lemma DrainedIsCredited(w: Window, op: Op, ready: Window, after: Window, log: seq<Outcome>, s: StreamId)
    requires s in ready.streams && StreamCredited(w, op, ready, [], s) && Charged(ready, after, log)
    ensures StreamCredited(w, op, after, log, s)
  {
  }

  /** Where all credit is after an operation: nothing moves but what it opens, returns, frees and grants. */
  lemma CreditIsExact(w: Window, op: Op)
    requires Apply(w, op).status == Done && !op.Close?
    ensures var e := Apply(w, op);
            && e.window.streams.Keys
               == (if op.OpenStream? then w.streams.Keys + {op.streamId}
                   else if op.CloseStream? then w.streams.Keys - {op.streamId} else w.streams.Keys)
            && (forall s | s in e.window.streams :: StreamCredited(w, op, e.window, e.log, s))
            && e.window.connection + SentAll(e.log) == w.connection + Freed(w, op)
            && e.window.initial == w.initial && e.window.closed == w.closed
            && e.window.issued == w.issued + if op.Take? then 1 else 0
  {
    if Prepare(w, op).Serve? {
      ServedIsCredited(w, op);
    }
  }

  lemma ServedIsCredited(w: Window, op: Op)
    requires Prepare(w, op).Serve?
    ensures var e := Apply(w, op);
            && e.window.streams.Keys == Prepare(w, op).window.streams.Keys
            && (forall s | s in e.window.streams :: StreamCredited(w, op, e.window, e.log, s))
            && e.window.connection + SentAll(e.log) == w.connection + Freed(w, op)
            && e.window.initial == w.initial && e.window.closed == w.closed
            && e.window.issued == Prepare(w, op).window.issued
  {
    var ready, rejected := Prepare(w, op).window, Prepare(w, op).log;
    var drained := Drain(ready, 0);
    PreparedRejections(w, op);
    ReadyIsCredited(w, op);
    DrainIsLargest(ready, 0);
    DrainFrame(ready, 0);
    SentAfterRejections(rejected, drained.log);
    forall s | s in drained.window.streams ensures StreamCredited(w, op, drained.window, rejected + drained.log, s) {
      DrainedIsCredited(w, op, ready, drained.window, drained.log, s);
    }
  }

  /** Closing the connection leaves no stream and no request, and rejects every request once, in order. */
  lemma ClosingIsExact(w: Window)
    ensures var e := Apply(w, Close);
            && e.status == Done && e.window.streams == map[] && e.window.waiters == [] && e.window.closed
            && |e.log| == |w.waiters|
            && forall i | 0 <= i < |e.log| :: e.log[i] == Rejected(w.waiters[i], ConnectionGone)
  {
  }
}
