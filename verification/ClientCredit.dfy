/**
 The credit protocol with the bounded queues that both ends keep in front of it.
 Towards the client the receiver is the client's window, which counts pending
 frames; the gateway counts the frames queued on each stream. Credit is counted
 in bytes, so neither bound is known to the sender: DATA that is within its
 credit is refused exactly when a queue is full.
 */
module ClientCredit {
  import opened Channel
  import opened CreditProtocol
  import opened CreditSafety
  import opened CreditLimits
  import F = FlowWindow
  import G = GatewayInbound
  import C = ClientInbound

  const MAX_PENDING_DOWNSTREAM_FRAMES: nat := 1024

  // ------------------------------------------------------ what the receiver does

  function FrameOps(g: G.Inbound, f: Frame): seq<G.Op> {
    match f
    case Open(s, window) => [G.Open(s, window)]
    case Data(s, bytes) => [if s in g.streams then G.Consume(s, bytes) else G.ConsumeRetired(s, bytes)]
    case End(_) => []
    case Reset(s) => [G.CloseStream(s)]
  }

  /** The operations that a step performs on the receive window. */
  ghost function ReceiverOps(sys: System, a: Action): seq<G.Op> {
    if sys.link.Down? || !Enabled(sys, a) then []
    else
      match a
      case ReceiverOpens(s, window) => [G.Open(s, window)]
      case ReceiverReleases(s, bytes) => [G.Release(s, bytes)]
      case ReceiverResets(s) => [G.Retire(s)]
      case ReceiverCloses(s) => [G.CloseStream(s)]
      case DeliverFrame => FrameOps(sys.receiver, sys.data[0])
      case _ => []
  }

  ghost function Trace(sys: System, actions: seq<Action>): seq<G.Op>
    decreases |actions|
  {
    if actions == [] then [] else ReceiverOps(sys, actions[0]) + Trace(Step(sys, actions[0]), actions[1..])
  }

  lemma ArrivalPerforms(sys: System, f: Frame)
    ensures FrameArrives(sys, f).receiver == G.Run(sys.receiver, FrameOps(sys.receiver, f))
  {
    var ops := FrameOps(sys.receiver, f);
    if ops != [] {
      assert ops[1..] == [];
    }
  }

  lemma StepPerforms(sys: System, a: Action)
    ensures Step(sys, a).receiver == G.Run(sys.receiver, ReceiverOps(sys, a))
  {
    var ops := ReceiverOps(sys, a);
    if a.DeliverFrame? && sys.link.Up? && sys.data != [] {
      DeliverFrameStep(sys);
      ArrivalPerforms(sys.(data := sys.data[1..]), sys.data[0]);
    } else if ops != [] {
      assert ops[1..] == [];
    }
  }

  lemma {:induction false} GatewayRunOfConcat(g: G.Inbound, a: seq<G.Op>, b: seq<G.Op>)
    ensures G.Run(g, a + b) == G.Run(G.Run(g, a), b)
    decreases |a|
  {
    if a == [] {
      assert a + b == b;
    } else {
      assert (a + b)[1..] == a[1..] + b;
      GatewayRunOfConcat(G.Apply(g, a[0]).state, a[1..], b);
    }
  }

  lemma {:induction false} RunPerforms(sys: System, actions: seq<Action>)
    ensures Run(sys, actions).receiver == G.Run(sys.receiver, Trace(sys, actions))
    decreases |actions|
  {
    if actions != [] {
      var next := Step(sys, actions[0]);
      StepPerforms(sys, actions[0]);
      RunPerforms(next, actions[1..]);
      GatewayRunOfConcat(sys.receiver, ReceiverOps(sys, actions[0]), Trace(next, actions[1..]));
    }
  }

  // ----------------------------------------------------- DATA within its credit

  /** The next frame is DATA of a stream that the receiver has open. */
  ghost predicate DataIsNext(sys: System) {
    sys.link.Up? && sys.data != [] && sys.data[0].Data? && sys.data[0].streamId in sys.receiver.streams
  }

  function NextOp(f: Frame): G.Op
    requires f.Data?
  {
    G.Consume(f.streamId, f.bytes)
  }

  lemma HonestDataMeetsFrameLimit(sys: System, c: C.Client)
    requires Inv(sys) && DataIsNext(sys) && C.Mirrors(c, sys.receiver) && C.Counted(c)
    ensures C.Apply(c, NextOp(sys.data[0])).status
            == if c.pendingFrames < c.maxPendingFrames then C.Shared(G.Accepted) else C.TooManyFrames
  {
    DataIsAccepted(sys);
    if C.FrameGuard(c, NextOp(sys.data[0])) {
      C.GuardRefuses(c, sys.receiver, NextOp(sys.data[0]));
    } else {
      C.SameAnswer(c, sys.receiver, NextOp(sys.data[0]));
    }
  }

  /**
   In every run that the client's window has gone along with, it mirrors the
   receiver, and it takes the next DATA of an open stream if and only if its frame
   queue has room; nothing about credit can make it refuse.
   */
  lemma ClientTakesDataExactlyWithinFrames(initial: nat, frames: nat, actions: seq<Action>)
    requires C.GuardFree(C.FreshClient(initial, frames), Trace(Begin(initial, frames), actions))
    ensures var sys := Run(Begin(initial, frames), actions);
            var c := C.Run(C.FreshClient(initial, frames), Trace(Begin(initial, frames), actions));
            && C.Mirrors(c, sys.receiver)
            && (DataIsNext(sys) ==>
                  C.Apply(c, NextOp(sys.data[0])).status
                  == if c.pendingFrames < c.maxPendingFrames then C.Shared(G.Accepted) else C.TooManyFrames)
  {
    var begin, client := Begin(initial, frames), C.FreshClient(initial, frames);
    var trace := Trace(begin, actions);
    BeginIsSafe(initial, frames);
    EveryRunIsSafe(begin, actions);
    RunPerforms(begin, actions);
    FreshMirrors(initial, frames);
    C.ReceiversAgreeExactlyWhenGuardFree(client, begin.receiver, trace);
    var sys := Run(begin, actions);
    if DataIsNext(sys) {
      HonestDataMeetsFrameLimit(sys, C.Run(client, trace));
    }
  }

  lemma FreshMirrors(initial: nat, frames: nat)
    ensures C.Mirrors(C.FreshClient(initial, frames), G.FreshInbound(initial, frames))
    ensures C.Counted(C.FreshClient(initial, frames)) && G.Valid(G.FreshInbound(initial, frames))
  {
    G.FreshIsValid(initial, frames);
    assert C.Consumed(map[]) == map[] && C.Frames(map[]) == map[];
  }

  datatype Reserved = Taken(receiver: G.Inbound, queuedFrames: nat) | QueueFull | CreditExceeded(status: G.Status)

  /** The gateway looks at the stream's own queue before it looks at credit. */
  function ReserveInboundChunk(g: G.Inbound, queuedFrames: nat, s: int, bytes: nat): Reserved {
    if queuedFrames >= MAX_PENDING_DOWNSTREAM_FRAMES then QueueFull
    else
      var effect := G.Apply(g, G.Consume(s, bytes));
      if effect.status == G.Accepted then Taken(effect.state, queuedFrames + 1) else CreditExceeded(effect.status)
  }

  /** The gateway takes the next DATA of an open stream if and only if the stream's queue has room. */
  lemma GatewayTakesDataExactlyWithinQueue(initial: nat, frames: nat, actions: seq<Action>, queuedFrames: nat)
    ensures var sys := Run(Begin(initial, frames), actions);
            DataIsNext(sys) ==>
              var reserved := ReserveInboundChunk(sys.receiver, queuedFrames, sys.data[0].streamId, sys.data[0].bytes);
              && (reserved.Taken? <==> queuedFrames < MAX_PENDING_DOWNSTREAM_FRAMES)
              && (!reserved.Taken? ==> reserved == QueueFull)
  {
    BeginIsSafe(initial, frames);
    EveryRunIsSafe(Begin(initial, frames), actions);
    var sys := Run(Begin(initial, frames), actions);
    if DataIsNext(sys) {
      DataIsAccepted(sys);
    }
  }

  // ------------------------------------------------------------ one byte a frame

  /** `k` frames of one byte have arrived on stream 1 and none is released; `n + 1` bytes of credit were given. */
  ghost predicate Filling(sys: System, c: C.Client, n: nat, k: nat) {
    && sys.link.Up? && sys.data == [] && sys.sender.waiters == [] && !sys.sender.closed
    && 1 in sys.sender.streams && 1 !in sys.finished && 1 in sys.receiver.streams && 1 in c.streams
    && k <= n && sys.sender.streams[1].available == sys.sender.connection == n + 1 - k
    && sys.receiver.streams[1].available == sys.receiver.connection == n + 1 - k
    && c.limit == c.streams[1].limit == n + 1 && c.consumedBytes == c.streams[1].consumedBytes == k
    && c.maxPendingFrames == n && c.pendingFrames == k
  }

  lemma TakingOne(sys: System, c: C.Client, n: nat, k: nat, s: int)
    requires Filling(sys, c, n, k) && s == 1
    ensures var sent := Step(sys, SenderTakes(s, 1));
            && DataIsNext(sent) && sent.data == [Data(s, 1)]
            && sent == sys.(sender := sent.sender, data := sent.data)
            && sent.sender == F.Spend(sys.sender, s, 1).(issued := sys.sender.issued + 1)
  {
    SpendingQuietly(sys, s, 1);
    assert sys.data + [Data(s, 1)] == [Data(s, 1)];
  }

  lemma ArrivingOne(sent: System, s: int)
    requires DataIsNext(sent) && sent.data == [Data(s, 1)]
    requires sent.receiver.streams[s].available > 0 && sent.receiver.connection > 0
    ensures Step(sent, DeliverFrame) == sent.(data := [], receiver := G.Apply(sent.receiver, G.Consume(s, 1)).state)
    ensures ReceiverOps(sent, DeliverFrame) == [G.Consume(s, 1)]
  {
    DeliverFrameStep(sent);
    assert sent.data[1..] == [];
  }

  lemma FillingOneMore(sys: System, c: C.Client, n: nat, k: nat, s: int)
    requires Filling(sys, c, n, k) && k < n && s == 1
    ensures var sent := Step(sys, SenderTakes(s, 1));
            && Filling(Step(sent, DeliverFrame), C.Apply(c, G.Consume(s, 1)).state, n, k + 1)
            && ReceiverOps(sent, DeliverFrame) == [G.Consume(s, 1)] && !C.FrameGuard(c, G.Consume(s, 1))
  {
    TakingOne(sys, c, n, k, s);
    ArrivingOne(Step(sys, SenderTakes(s, 1)), s);
  }

  /** The client refuses DATA that is within its credit. */
  ghost predicate FramesRunOut(sys: System, c: C.Client) {
    && DataIsNext(sys) && G.Apply(sys.receiver, NextOp(sys.data[0])).status == G.Accepted
    && C.Apply(c, NextOp(sys.data[0])).status == C.TooManyFrames
  }

  lemma {:induction false} FillingUp(sys: System, c: C.Client, n: nat, k: nat, s: int) returns (actions: seq<Action>)
    requires Filling(sys, c, n, k) && s == 1
    ensures C.GuardFree(c, Trace(sys, actions)) && FramesRunOut(Run(sys, actions), C.Run(c, Trace(sys, actions)))
    decreases n - k
  {
    var sent := Step(sys, SenderTakes(s, 1));
    TakingOne(sys, c, n, k, s);
    if k == n {
      actions := [SenderTakes(s, 1)];
      assert actions[1..] == [];
      assert Run(sent, []) == sent && Trace(sent, []) == [];
      assert Trace(sys, actions) == [];
    } else {
      FillingOneMore(sys, c, n, k, s);
      var next, nextC := Step(sent, DeliverFrame), C.Apply(c, G.Consume(s, 1)).state;
      var rest := FillingUp(next, nextC, n, k + 1, s);
      actions := [SenderTakes(s, 1), DeliverFrame] + rest;
      TwoSteps(sys, actions, rest);
      assert Trace(sys, actions) == [G.Consume(s, 1)] + Trace(next, rest);
      assert Trace(sys, actions)[1..] == Trace(next, rest);
    }
  }

  lemma TwoSteps(sys: System, actions: seq<Action>, rest: seq<Action>)
    requires |actions| >= 2 && actions[2..] == rest
    ensures var first := Step(sys, actions[0]);
            var second := Step(first, actions[1]);
            && Run(sys, actions) == Run(second, rest)
            && Trace(sys, actions)
               == ReceiverOps(sys, actions[0]) + ReceiverOps(first, actions[1]) + Trace(second, rest)
  {
    assert actions[1..][0] == actions[1] && actions[1..][1..] == rest;
    var first := Step(sys, actions[0]);
    assert Run(first, actions[1..]) == Run(Step(first, actions[1]), rest);
    assert Trace(first, actions[1..]) == ReceiverOps(first, actions[1]) + Trace(Step(first, actions[1]), rest);
  }

  lemma FillingStarts(n: nat, s: int, window: nat)
    requires s == 1 && window == n + 1
    ensures var grown := Step(Begin(window, n), SenderOpens(s, window));
            && ReceiverOps(grown, DeliverFrame) == [G.Open(s, window)]
            && Filling(Step(grown, DeliverFrame), C.Apply(C.FreshClient(window, n), G.Open(s, window)).state, n, 0)
  {
    var begin := Begin(window, n);
    OpeningQuietly(begin, s, window);
    var grown := Step(begin, SenderOpens(s, window));
    assert grown.data == [Open(s, window)] && grown.data[1..] == [];
    DeliverFrameStep(grown);
  }

  /** Whatever the frame limit, there is a run in which honest DATA, one byte a frame, is refused for it. */
  lemma FrameLimitIsReachable(n: nat, s: int) returns (actions: seq<Action>)
    requires s == 1
    ensures var begin, client := Begin(n + 1, n), C.FreshClient(n + 1, n);
            && C.GuardFree(client, Trace(begin, actions))
            && FramesRunOut(Run(begin, actions), C.Run(client, Trace(begin, actions)))
  {
    var begin, client := Begin(n + 1, n), C.FreshClient(n + 1, n);
    FillingStarts(n, s, n + 1);
    var next := Step(Step(begin, SenderOpens(s, n + 1)), DeliverFrame);
    var rest := FillingUp(next, C.Apply(client, G.Open(s, n + 1)).state, n, 0, s);
    actions := [SenderOpens(s, n + 1), DeliverFrame] + rest;
    TwoSteps(begin, actions, rest);
    assert Trace(begin, actions) == [G.Open(s, n + 1)] + Trace(next, rest);
    assert Trace(begin, actions)[1..] == Trace(next, rest);
  }
}
