/**
 Where the tolerance of late DATA ends. A reset is sound only under a condition
 the receiver can see; outside it, a few honest steps lead to a refusal.
 */
module CreditLimits {
  import opened Channel
  import opened CreditProtocol
  import opened CreditSafety
  import opened CreditReturn
  import F = FlowWindow
  import G = GatewayInbound
  import R = RetiredBudget

  /** Both ends have the same streams open, and nothing is in flight or parked. */
  ghost predicate Quiet(sys: System) {
    && sys.link.Up? && Inv(sys)
    && sys.data == [] && sys.notices == [] && sys.sender.waiters == []
    && sys.sender.streams.Keys == sys.receiver.streams.Keys
  }

  lemma QuietCredit(sys: System)
    requires Quiet(sys)
    ensures sys.sender.connection == sys.receiver.connection
    ensures forall s | s in sys.sender.streams ::
              && sys.sender.streams[s].outstanding == sys.receiver.streams[s].outstanding
              && sys.sender.streams[s].available == sys.receiver.streams[s].available
  {
    assert Future(sys) == Held(sys.receiver);
    forall s | s in sys.sender.streams
      ensures sys.sender.streams[s].outstanding == sys.receiver.streams[s].outstanding
    {
      assert s in sys.receiver.streams && s in Held(sys.receiver);
    }
    assert F.Outstanding(sys.sender.streams) == Held(sys.receiver);
  }

  lemma QuietIsSteady(sys: System)
    requires Quiet(sys)
    ensures Steady(sys)
  {
    assert Future(sys) == Held(sys.receiver);
  }

  /** The first request in an empty queue is granted at once when both credits allow it. */
  lemma GrantedAtOnce(w: F.Window, s: int, bytes: nat)
    requires w.waiters == [] && !w.closed && s in w.streams
    requires 0 < bytes <= w.streams[s].available && bytes <= w.connection
    ensures DataFrames(F.Apply(w, F.Take(s, bytes)).log) == [Data(s, bytes)]
    ensures F.Apply(w, F.Take(s, bytes)).window == F.Spend(w, s, bytes).(issued := w.issued + 1)
  {
    var waiter := F.Waiter(w.issued, s, bytes);
    var asked := w.(waiters := [waiter], issued := w.issued + 1);
    assert w.waiters + [waiter] == [waiter];
    assert F.Apply(w, F.Take(s, bytes)) == F.Finish(asked, []);
    var served := F.Spend(asked, s, bytes).(waiters := F.RemoveAt([waiter], 0));
    assert served.waiters == [];
    assert F.Drain(served, 0) == F.Served(served, []);
    assert F.Drain(asked, 0).log == [F.Granted(waiter, bytes)];
    assert DataFrames([F.Granted(waiter, bytes)]) == [Data(s, bytes)] by {
      assert [F.Granted(waiter, bytes)][1..] == [];
    }
  }

  lemma EmptyQueueDrains(w: F.Window)
    requires w.waiters == []
    ensures F.Drain(w, 0) == F.Served(w, [])
  {
  }

  lemma LeavingQuietly(sys: System, s: int, control: seq<Frame>)
    requires sys.sender.waiters == [] && s in sys.sender.streams
    ensures Emit(sys, F.CloseStream(s), control)
            == sys.(sender := sys.sender.(streams := sys.sender.streams - {s},
                                          connection := sys.sender.connection + sys.sender.streams[s].outstanding),
                    data := sys.data + control)
  {
    var ready := F.Prepare(sys.sender, F.CloseStream(s));
    assert ready.window.waiters == [] && ready.log == [];
    EmptyQueueDrains(ready.window);
    assert sys.data + control + [] == sys.data + control;
  }

  lemma SpendingQuietly(sys: System, s: int, bytes: nat)
    requires sys.link.Up? && sys.sender.waiters == [] && !sys.sender.closed
    requires s in sys.sender.streams && s !in sys.finished
    requires 0 < bytes <= sys.sender.streams[s].available && bytes <= sys.sender.connection
    ensures Step(sys, SenderTakes(s, bytes))
            == sys.(sender := F.Spend(sys.sender, s, bytes).(issued := sys.sender.issued + 1),
                    data := sys.data + [Data(s, bytes)])
  {
    GrantedAtOnce(sys.sender, s, bytes);
    assert sys.data + [] + [Data(s, bytes)] == sys.data + [Data(s, bytes)];
  }

  lemma OpeningQuietly(sys: System, u: int, bytes: nat)
    requires sys.link.Up? && sys.sender.waiters == [] && !sys.sender.closed
    requires u > 0 && u !in sys.windows && u !in sys.sender.streams && bytes > 0
    ensures Step(sys, SenderOpens(u, bytes))
            == sys.(sender := sys.sender.(streams := sys.sender.streams[u := F.Credit(bytes, 0)]),
                    data := sys.data + [Open(u, bytes)], windows := sys.windows[u := bytes])
  {
    EmptyQueueDrains(sys.sender.(streams := sys.sender.streams[u := F.Credit(bytes, 0)]));
    assert sys.data + [Open(u, bytes)] + [] == sys.data + [Open(u, bytes)];
  }

  // ---------------------------------------------------- retiring a stream

  /** The end of a run does not show a late frame of `s` refused although it was recorded and affordable. */
  ghost predicate Tolerated(end: System, s: int) {
    end.link.Down? && end.link.fault.LateRefused? && end.link.fault.streamId == s ==>
      || s in end.lost
      || end.receiver.retired.remainingFrames == 0
      || end.link.fault.bytes > end.receiver.retired.remainingBytes
  }

  lemma CoveredStepGrows(sys: System, a: Action)
    ensures sys.covered <= Step(sys, a).covered
  {
  }

  lemma {:induction false} CoveredGrows(sys: System, actions: seq<Action>)
    ensures sys.covered <= Run(sys, actions).covered
    decreases |actions|
  {
    if actions != [] {
      CoveredStepGrows(sys, actions[0]);
      CoveredGrows(Step(sys, actions[0]), actions[1..]);
    }
  }

  /** After a safe reset every continuation tolerates the stream's late DATA. */
  lemma SafeRetirementIsTolerated(sys: System, s: int, actions: seq<Action>)
    requires Inv(sys) && sys.link.Up? && s in sys.receiver.streams && SafeToRetire(sys.receiver, s)
    ensures Tolerated(Run(Step(sys, ReceiverResets(s)), actions), s)
  {
    StepIsSafe(sys, ReceiverResets(s));
    EveryRunIsSafe(Step(sys, ReceiverResets(s)), actions);
    ReceiverResetsStep(sys, s);
    CoveredGrows(Step(sys, ReceiverResets(s)), actions);
  }

  /** The steps that overrun an unsafe reset: another stream is reset and its credit spent on this one. */
  ghost function Overrun(sys: System, s: int, t: int): seq<Action>
    requires s in sys.receiver.streams
  {
    [SenderResets(t), SenderTakes(s, G.LateAllowance(sys.receiver, s) + 1), DeliverFrame, DeliverFrame]
  }

  lemma RunOfFour(sys: System, actions: seq<Action>)
    requires |actions| == 4
    ensures Run(sys, actions) == Step(Step(Step(Step(sys, actions[0]), actions[1]), actions[2]), actions[3])
  {
    assert actions[1..][0] == actions[1];
    assert actions[1..][1..][0] == actions[2];
    assert actions[1..][1..][1..][0] == actions[3];
    assert actions[1..][1..][1..][1..] == [];
    var one := Step(sys, actions[0]);
    var two := Step(one, actions[1]);
    var three := Step(two, actions[2]);
    assert Run(three, actions[1..][1..][1..]) == Run(Step(three, actions[3]), []);
    assert Run(two, actions[1..][1..]) == Run(three, actions[1..][1..][1..]);
    assert Run(one, actions[1..]) == Run(two, actions[1..][1..]);
  }

  lemma ResetIs(sys: System, s: int)
    requires sys.link.Up? && s in sys.receiver.streams
    ensures var reset := Step(sys, ReceiverResets(s));
            && reset.sender == sys.sender && reset.data == sys.data && reset.link.Up? && reset.finished == sys.finished
            && reset.receiver == G.Apply(sys.receiver, G.Retire(s)).state
  {
    ReceiverResetsStep(sys, s);
  }

  lemma AfterReset(sys: System, s: int, t: int)
    requires sys.link.Up? && sys.data == [] && sys.sender.waiters == []
    requires s in sys.receiver.streams && t in sys.sender.streams && s != t
    ensures var sent := Step(Step(sys, ReceiverResets(s)), SenderResets(t));
            && sent.link.Up? && sent.data == [Reset(t)] && sent.finished == sys.finished
            && sent.receiver == G.Apply(sys.receiver, G.Retire(s)).state
            && sent.lost == Step(sys, ReceiverResets(s)).lost
            && sent.sender == sys.sender.(streams := sys.sender.streams - {t},
                                          connection := sys.sender.connection + sys.sender.streams[t].outstanding)
  {
    var reset := Step(sys, ReceiverResets(s));
    ResetIs(sys, s);
    LeavingQuietly(reset, t, [Reset(t)]);
    assert reset.data + [Reset(t)] == [Reset(t)];
  }

  lemma AfterArrival(spent: System, s: int, t: int, bytes: nat)
    requires spent.link.Up? && spent.data == [Reset(t), Data(s, bytes)]
    requires s !in spent.receiver.streams && s != t
    requires R.Refused(spent.receiver.retired, s, bytes) != R.Accepted
    ensures var end := Step(Step(spent, DeliverFrame), DeliverFrame);
            && end.link == Down(LateRefused(s, bytes))
            && end.receiver.retired == spent.receiver.retired && end.lost == spent.lost
  {
    var after := Step(spent, DeliverFrame);
    assert spent.data[1..] == [Data(s, bytes)];
    assert after == Receive(spent.(data := [Data(s, bytes)]), G.CloseStream(t));
    assert after.receiver.retired == spent.receiver.retired && s !in after.receiver.streams;
  }

  /** The sender has nothing under way and, with what a reset of `t` gives back, a byte too many for `s`. */
  ghost predicate CanOverspend(sys: System, s: int, t: int) {
    && sys.link.Up? && sys.data == [] && sys.sender.waiters == [] && !sys.sender.closed
    && s in sys.receiver.streams && s in sys.sender.streams && t in sys.sender.streams && s != t
    && s !in sys.finished && G.LateAllowance(sys.receiver, s) < sys.sender.streams[s].available
    && G.LateAllowance(sys.receiver, s) < sys.sender.connection + sys.sender.streams[t].outstanding
  }

  lemma QuietSenderCanOverspend(sys: System, s: int, t: int)
    requires Quiet(sys) && s in sys.receiver.streams && t in sys.receiver.streams && s != t
    requires s !in sys.finished
    requires sys.receiver.streams[s].available > sys.receiver.connection
    requires sys.receiver.streams[t].outstanding > 0
    ensures CanOverspend(sys, s, t)
  {
    QuietCredit(sys);
  }

  /** Once the other stream's credit is back, one byte more than the allowance is on its way. */
  lemma OverrunIsSent(sys: System, s: int, t: int) returns (spent: System)
    requires CanOverspend(sys, s, t)
    ensures spent.link.Up? && spent.data == [Reset(t), Data(s, G.LateAllowance(sys.receiver, s) + 1)]
    ensures spent.receiver == G.Apply(sys.receiver, G.Retire(s)).state
    ensures spent.lost == Step(sys, ReceiverResets(s)).lost
    ensures Run(Step(sys, ReceiverResets(s)), Overrun(sys, s, t)) == Step(Step(spent, DeliverFrame), DeliverFrame)
  {
    spent := SpendingTheRest(sys, s, t, G.LateAllowance(sys.receiver, s) + 1);
    RunOfFour(Step(sys, ReceiverResets(s)), Overrun(sys, s, t));
  }

  lemma SpendingTheRest(sys: System, s: int, t: int, late: nat) returns (spent: System)
    requires sys.link.Up? && sys.data == [] && sys.sender.waiters == [] && !sys.sender.closed
    requires s in sys.receiver.streams && s in sys.sender.streams && t in sys.sender.streams && s != t
    requires s !in sys.finished && 0 < late <= sys.sender.streams[s].available
    requires late <= sys.sender.connection + sys.sender.streams[t].outstanding
    ensures spent == Step(Step(Step(sys, ReceiverResets(s)), SenderResets(t)), SenderTakes(s, late))
    ensures spent.link.Up? && spent.data == [Reset(t), Data(s, late)]
    ensures spent.receiver == G.Apply(sys.receiver, G.Retire(s)).state
    ensures spent.lost == Step(sys, ReceiverResets(s)).lost
  {
    AfterReset(sys, s, t);
    var sent := Step(Step(sys, ReceiverResets(s)), SenderResets(t));
    SpendingQuietly(sent, s, late);
    spent := Step(sent, SenderTakes(s, late));
  }

  /** The budgets have room for a frame one byte beyond the allowance. */
  ghost predicate Affordable(g: G.Inbound, s: int) {
    && G.Valid(g) && s in g.streams && !R.Tracked(g.retired.entries, s)
    && g.retired.remainingFrames > 0 && g.retired.remainingBytes > G.LateAllowance(g, s)
  }

  lemma RetiredRefuses(g: G.Inbound, s: int)
    requires Affordable(g, s)
    ensures var after := G.Apply(g, G.Retire(s)).state;
            && s !in after.streams
            && after.retired.remainingFrames == g.retired.remainingFrames
            && after.retired.remainingBytes == g.retired.remainingBytes
            && R.Refused(after.retired, s, G.LateAllowance(g, s) + 1) != R.Accepted
  {
    R.AllowRecords(g.retired, s, G.LateAllowance(g, s));
  }

  lemma OverrunIsRefused(g: G.Inbound, spent: System, s: int, t: int)
    requires Affordable(g, s) && s != t
    requires spent.link.Up? && spent.data == [Reset(t), Data(s, G.LateAllowance(g, s) + 1)]
    requires spent.receiver == G.Apply(g, G.Retire(s)).state
    requires s !in spent.lost
    ensures !Tolerated(Step(Step(spent, DeliverFrame), DeliverFrame), s)
  {
    RetiredRefuses(g, s);
    AfterArrival(spent, s, t, G.LateAllowance(g, s) + 1);
  }

  lemma ResetIsNotLost(sys: System, s: int)
    requires Affordable(sys.receiver, s) && sys.link.Up? && s !in sys.lost
    ensures s !in Step(sys, ReceiverResets(s)).lost
  {
    ReceiverResetsStep(sys, s);
  }

  lemma OverspendingOverruns(sys: System, s: int, t: int)
    requires CanOverspend(sys, s, t) && Affordable(sys.receiver, s) && s !in sys.lost
    ensures !Tolerated(Run(Step(sys, ReceiverResets(s)), Overrun(sys, s, t)), s)
  {
    var spent := OverrunIsSent(sys, s, t);
    ResetIsNotLost(sys, s);
    OverrunIsRefused(sys.receiver, spent, s, t);
  }

  /** An unsafe reset is overrun although the budgets had room and the allowance was kept. */
  lemma UnsafeRetirementIsOverrun(sys: System, s: int, t: int)
    requires Quiet(sys) && Affordable(sys.receiver, s) && t in sys.receiver.streams && s != t
    requires s !in sys.finished && s !in sys.lost
    requires sys.receiver.streams[s].available > sys.receiver.connection
    requires sys.receiver.streams[t].outstanding > 0
    ensures !Tolerated(Run(Step(sys, ReceiverResets(s)), Overrun(sys, s, t)), s)
  {
    QuietSenderCanOverspend(sys, s, t);
    OverspendingOverruns(sys, s, t);
  }

  /**
   The unsafe case is reached by ordinary traffic: the receiver still holds a byte
   of stream 1 when it resets stream 3, the sender resets stream 1 before it hears
   of that, and the byte it gets back goes out on stream 3.
   */
  lemma UnsafeRetirementIsReachable(begin: System, actions: seq<Action>) returns (sys: System)
    requires begin == Begin(2, 8)
    requires actions
             == [SenderOpens(1, 2), SenderOpens(3, 2), SenderTakes(1, 1), DeliverFrame, DeliverFrame, DeliverFrame]
    ensures sys == Run(begin, actions) && sys.link.Up? && 3 in sys.receiver.streams
    ensures Overrun(sys, 3, 1) == [SenderResets(1), SenderTakes(3, 2), DeliverFrame, DeliverFrame]
    ensures !Tolerated(Run(Step(sys, ReceiverResets(3)), Overrun(sys, 3, 1)), 3)
  {
    RunOfSix(begin, actions);
    sys := ExampleTraffic(begin);
    RunsFromBeginAreSafe(2, 8, begin, actions);
    ExampleIsOverrun(sys);
  }

  lemma RunsFromBeginAreSafe(initial: nat, maximumFrames: nat, begin: System, actions: seq<Action>)
    requires begin == Begin(initial, maximumFrames)
    ensures Safe(Run(begin, actions))
  {
    BeginIsSafe(initial, maximumFrames);
    EveryRunIsSafe(begin, actions);
  }

  lemma ExampleIsOverrun(sys: System)
    requires Safe(sys) && sys.link.Up? && sys.data == [] && sys.notices == [] && sys.finished == {} && sys.lost == {}
    requires sys.sender.waiters == [] && sys.sender.streams.Keys == {1, 3}
    requires sys.receiver == G.Inbound(2, 1, map[1 := G.Credit(2, 1, 1), 3 := G.Credit(2, 2, 0)], R.FreshBudget(2, 8))
    ensures Overrun(sys, 3, 1) == [SenderResets(1), SenderTakes(3, 2), DeliverFrame, DeliverFrame]
    ensures !Tolerated(Run(Step(sys, ReceiverResets(3)), Overrun(sys, 3, 1)), 3)
  {
    ExampleIsAffordable(sys.receiver);
    UnsafeRetirementIsOverrun(sys, 3, 1);
  }

  lemma ExampleIsAffordable(g: G.Inbound)
    requires G.Valid(g)
    requires g == G.Inbound(2, 1, map[1 := G.Credit(2, 1, 1), 3 := G.Credit(2, 2, 0)], R.FreshBudget(2, 8))
    ensures Affordable(g, 3) && G.LateAllowance(g, 3) == 1
  {
  }

  lemma RunOfSix(sys: System, actions: seq<Action>)
    requires |actions| == 6
    ensures Run(sys, actions)
            == Step(Step(Step(Step(Step(Step(sys, actions[0]), actions[1]), actions[2]), actions[3]), actions[4]),
               actions[5])
  {
    var two := Step(Step(sys, actions[0]), actions[1]);
    assert actions[1..][0] == actions[1] && actions[1..][1..] == actions[2..];
    assert Run(sys, actions) == Run(Step(sys, actions[0]), actions[1..]) == Run(two, actions[2..]);
    RunOfFour(two, actions[2..]);
  }

  lemma ExampleTraffic(begin: System) returns (sys: System)
    requires begin == Begin(2, 8)
    ensures sys == Step(Step(Step(Step(Step(Step(begin, SenderOpens(1, 2)), SenderOpens(3, 2)), SenderTakes(1, 1)),
                             DeliverFrame), DeliverFrame), DeliverFrame)
    ensures sys.link.Up? && sys.data == [] && sys.notices == [] && sys.finished == {} && sys.lost == {}
    ensures sys.sender.waiters == [] && sys.sender.streams.Keys == {1, 3} && sys.windows.Keys == {1, 3}
    ensures sys.receiver == G.Inbound(2, 1, map[1 := G.Credit(2, 1, 1), 3 := G.Credit(2, 2, 0)], R.FreshBudget(2, 8))
  {
    OpeningQuietly(begin, 1, 2);
    var one := Step(begin, SenderOpens(1, 2));
    OpeningQuietly(one, 3, 2);
    var two := Step(one, SenderOpens(3, 2));
    SpendingQuietly(two, 1, 1);
    var three := Step(two, SenderTakes(1, 1));
    assert three.data == [Open(1, 2), Open(3, 2), Data(1, 1)];
    assert three.sender.streams == map[1 := F.Credit(1, 1), 3 := F.Credit(2, 0)];
    ExampleArrivals(three);
    sys := Step(Step(Step(three, DeliverFrame), DeliverFrame), DeliverFrame);
  }

  lemma ExampleArrivals(three: System)
    requires three.link.Up? && three.data == [Open(1, 2), Open(3, 2), Data(1, 1)]
    requires three.receiver == G.FreshInbound(2, 8)
    ensures Step(Step(Step(three, DeliverFrame), DeliverFrame), DeliverFrame)
            == three.(data := [], receiver := three.receiver.(
                 connection := 1, streams := map[1 := G.Credit(2, 1, 1), 3 := G.Credit(2, 2, 0)]))
  {
    var four := Step(three, DeliverFrame);
    assert four.data == [Open(3, 2), Data(1, 1)];
    assert four.receiver.streams == map[1 := G.Credit(2, 2, 0)];
    var five := Step(four, DeliverFrame);
    assert five.data == [Data(1, 1)];
    assert five.receiver.streams == map[1 := G.Credit(2, 2, 0), 3 := G.Credit(2, 2, 0)];
    var six := Step(five, DeliverFrame);
    assert six.receiver.streams == map[1 := G.Credit(2, 1, 1), 3 := G.Credit(2, 2, 0)];
  }
}
