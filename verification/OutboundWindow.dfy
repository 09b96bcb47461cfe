/** The sender's window as the relay package keeps it: fields changed in place, loops over the queue. */
module OutboundWindow {
  import opened FlowWindow

  class OutboundFlowWindow {
    const initialConnectionBytes: nat
    var connectionAvailable: nat
    var streams: map<StreamId, Credit>
    var waiters: seq<Waiter>
    var closed: bool
    var issued: nat
    var log: seq<Outcome>

    ghost function State(): Window
      reads this
    {
      Window(initialConnectionBytes, connectionAvailable, streams, waiters, closed, issued)
    }

    /** The state and log are what the model says the operation leaves, for the status it reports. */
    twostate predicate Performed(op: Op, status: Status)
      reads this
    {
      var effect := Apply(old(State()), op);
      status == effect.status && State() == effect.window && log == old(log) + effect.log
    }

    constructor (initialBytes: nat)
      requires initialBytes > 0
      ensures State() == Fresh(initialBytes) && log == []
    {
      initialConnectionBytes := initialBytes;
      connectionAvailable := initialBytes;
      streams, waiters, closed, issued, log := map[], [], false, 0, [];
    }

    method OpenStream(streamId: int, initialStreamBytes: int) returns (status: Status)
      modifies this
      ensures Performed(Op.OpenStream(streamId, initialStreamBytes), status)
    {
      if streamId <= 0 || initialStreamBytes <= 0 { return NotPositive; }
      if closed { return WindowClosed; }
      if streamId in streams { return StreamExists; }
      streams := streams[streamId := Credit(initialStreamBytes, 0)];
      DrainWaiters();
      return Done;
    }

    /** A request that is accepted is answered later, through the log, under the ticket `issued` had. */
    method Take(streamId: int, maximumBytes: int) returns (status: Status)
      modifies this
      ensures Performed(Op.Take(streamId, maximumBytes), status)
    {
      if maximumBytes <= 0 { return NotPositive; }
      if closed { return WindowClosed; }
      if streamId !in streams { return StreamMissing; }
      waiters := waiters + [Waiter(issued, streamId, maximumBytes)];
      issued := issued + 1;
      DrainWaiters();
      return Done;
    }

    method Update(streamId: int, bytes: int) returns (status: Status)
      modifies this
      ensures Performed(Op.Update(streamId, bytes), status)
    {
      if bytes <= 0 { return NotPositive; }
      if streamId !in streams { return StreamMissing; }
      var stream := streams[streamId];
      if bytes > stream.outstanding { return ExceedsOutstanding; }
      streams := streams[streamId := Credit(stream.available + bytes, stream.outstanding - bytes)];
      connectionAvailable := connectionAvailable + bytes;
      assert State() == Refill(old(State()), streamId, bytes);
      if connectionAvailable > initialConnectionBytes { return ExceedsConnection; }
      DrainWaiters();
      return Done;
    }

    method CloseStream(streamId: int)
      modifies this
      ensures Performed(Op.CloseStream(streamId), Done)
    {
      if streamId !in streams { return; }
      var stream := streams[streamId];
      streams := streams - {streamId};
      connectionAvailable := connectionAvailable + stream.outstanding;
      RejectWaiters(streamId);
      ghost var ready := Prepare(old(State()), Op.CloseStream(streamId));
      assert ready.Serve? && State() == ready.window && log == old(log) + ready.log;
      DrainWaiters();
    }

    /** Takes the stream's requests out of the queue, from the back. */
    method RejectWaiters(streamId: int)
      modifies this`waiters, this`log
      ensures waiters == Kept(old(waiters), streamId)
      ensures log == old(log) + RejectedBackwards(old(waiters), streamId)
    {
      var queue := waiters;
      var index := |waiters|;
      while index > 0
        invariant 0 <= index <= |queue|
        invariant waiters == queue[..index] + Kept(queue[index..], streamId)
        invariant log == old(log) + RejectedBackwards(queue[index..], streamId)
      {
        index := index - 1;
        var waiter := waiters[index];
        assert queue[index..][1..] == queue[index + 1..];
        if waiter.streamId == streamId {
          waiters := RemoveAt(waiters, index);
          assert waiters == queue[..index] + Kept(queue[index + 1..], streamId);
          log := log + [Rejected(waiter, StreamGone)];
        } else {
          assert Kept(queue[index..], streamId) == [waiter] + Kept(queue[index + 1..], streamId);
        }
      }
      assert queue[0..] == queue;
    }

    method Close()
      modifies this
      ensures Performed(Op.Close, Done)
    {
      closed := true;
      streams := map[];
      var taken := waiters;
      waiters := [];
      for i := 0 to |taken|
        invariant log == old(log) + RejectedAll(taken)[..i]
        invariant State() == old(State()).(closed := true, streams := map[], waiters := [])
      {
        log := log + [Rejected(taken[i], ConnectionGone)];
      }
      assert RejectedAll(taken)[..|taken|] == RejectedAll(taken);
    }

    method DrainWaiters()
      modifies this
      ensures State() == Drain(old(State()), 0).window
      ensures log == old(log) + Drain(old(State()), 0).log
    {
      ghost var goal := Total(At(0));
      var index: nat := 0;
      while index < |waiters|
        invariant index <= |waiters|
        invariant Total(At(index)) == goal
        decreases |waiters| - index
      {
        TurnKeepsTotal(At(index));
        index := ServeOne(index);
      }
    }

    ghost function At(index: nat): Position
      requires index <= |waiters|
      reads this
    {
      Position(State(), index, log)
    }

    /** The body of the loop: answer the request at `index`, or step over it. */
    method ServeOne(index: nat) returns (next: nat)
      requires index < |waiters|
      modifies this
      ensures next <= |waiters|
      ensures At(next) == Turn(old(At(index)))
      ensures |waiters| - next < old(|waiters|) - index
    {
      var waiter := waiters[index];
      if waiter.streamId !in streams {
        waiters := RemoveAt(waiters, index);
        log := log + [Rejected(waiter, StreamGone)];
        return index;
      }
      var stream := streams[waiter.streamId];
      var granted := Min(waiter.maximumBytes, Min(stream.available, connectionAvailable));
      if granted == 0 {
        return index + 1;
      }
      streams := streams[waiter.streamId := Credit(stream.available - granted, stream.outstanding + granted)];
      connectionAvailable := connectionAvailable - granted;
      waiters := RemoveAt(waiters, index);
      log := log + [Granted(waiter, granted)];
      return index;
    }
  }

  /** Where the drain loop stands. */
  datatype Position = Position(window: Window, index: nat, log: seq<Outcome>) {
    predicate Within() {
      index <= |window.waiters|
    }
  }

  function Turn(p: Position): Position
    requires p.index < |p.window.waiters|
  {
    var waiter := p.window.waiters[p.index];
    var rest := RemoveAt(p.window.waiters, p.index);
    if waiter.streamId !in p.window.streams then
      Position(p.window.(waiters := rest), p.index, p.log + [Rejected(waiter, StreamGone)])
    else if Grantable(p.window, waiter) == 0 then
      p.(index := p.index + 1)
    else
      var granted := Grantable(p.window, waiter);
      Position(Spend(p.window, waiter.streamId, granted).(waiters := rest), p.index, p.log + [Granted(waiter, granted)])
  }

  /** What the loop will have done when it ends. */
  ghost function Total(p: Position): Served
    requires p.Within()
  {
    var rest := Drain(p.window, p.index);
    Served(rest.window, p.log + rest.log)
  }

  lemma TurnKeepsTotal(p: Position)
    requires p.index < |p.window.waiters|
    ensures Turn(p).Within() && Total(Turn(p)) == Total(p)
  {
    var turn := Turn(p);
    if turn.index == p.index {
      Reassociate(p.log, turn.log[|p.log|], Drain(turn.window, turn.index).log);
    }
  }

  lemma Reassociate(past: seq<Outcome>, next: Outcome, rest: seq<Outcome>)
    ensures past + ([next] + rest) == (past + [next]) + rest
  {
  }
}
