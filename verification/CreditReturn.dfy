/**
 No credit leaks and nothing waits for ever: once everything in flight has
 arrived and the receiver holds nothing, the sender has all its credit back and
 no request is parked.
 */
module CreditReturn {
  import opened Sums
  import opened Channel
  import opened CreditProtocol
  import opened CreditSafety
  import F = FlowWindow
  import G = GatewayInbound

  /** Bytes of a stream that ended and that the receiver let go of are all on their way back as credit. */
  ghost predicate Repaid(sys: System) {
    forall s | s in sys.sender.streams && s !in Future(sys) && s !in sys.cancelled ::
      sys.sender.streams[s].outstanding == Credited(sys.notices, s)
  }

  ghost predicate CancelFrom(notices: seq<Notice>, s: int, from: int) {
    exists j :: 0 <= j < |notices| && from < j && notices[j] == Cancel(s)
  }

  /** The sender will hear of every reset of a stream it has, or is about to have, open. */
  ghost predicate CancelsComing(sys: System) {
    && (forall s | s in sys.sender.streams && s in sys.cancelled :: CancelFrom(sys.notices, s, -1))
    && (forall i | 0 <= i < |sys.notices| && sys.notices[i].Announce? && sys.notices[i].streamId in sys.cancelled ::
          CancelFrom(sys.notices, sys.notices[i].streamId, i))
  }

  ghost predicate Returning(sys: System) {
    Repaid(sys) && CancelsComing(sys)
  }

  // ------------------------------------------------- serving the queue

  lemma ServedReturns(sys: System)
    requires Linked(sys) && EndsLast(sys) && Returning(sys)
    ensures Returning(Served(sys))
  {
    var after := Served(sys);
    var frames := DataFrames(F.Drain(sys.sender, 0).log);
    ServedFuture(sys);
    DrainEmits(sys.sender, 0);
    forall s | s in after.sender.streams && s !in Future(after) && s !in after.cancelled
      ensures after.sender.streams[s].outstanding == Credited(after.notices, s)
    {
      forall i | 0 <= i < |frames| && frames[i].Data? ensures frames[i].streamId != s {
        assert frames[i].streamId in Wanted(sys.sender.waiters);
      }
      UnmentionedBytes(frames, s);
    }
  }

  lemma ServedSettles(sys: System)
    requires F.Queued(sys.sender)
    ensures F.Settled(Served(sys).sender)
  {
    F.DrainSettles(sys.sender, 0);
  }

  // ---------------------------------------------------- the sender's steps

  lemma SenderOpenedReturns(sys: System, s: int, window: nat)
    requires Inv(sys) && Returning(sys) && s !in sys.windows
    ensures Returning(SenderOpened(sys, s, window))
  {
    var after := SenderOpened(sys, s, window);
    NewStreamIsUnknown(sys, s);
    FutureAfter(sys, Open(s, window));
    assert Future(after) == Future(sys)[s := 0];
  }

  lemma SenderAskedReturns(sys: System, s: int, maximum: nat)
    requires Returning(sys)
    ensures Returning(SenderAsked(sys, s, maximum))
  {
    assert Future(SenderAsked(sys, s, maximum)) == Future(sys);
  }

  lemma SenderEndedReturns(sys: System, s: int)
    requires Returning(sys)
    ensures Returning(SenderEnded(sys, s))
  {
    FutureAfter(sys, End(s));
    assert Future(SenderEnded(sys, s)) == Future(sys);
  }

  lemma SenderLeftReturns(sys: System, s: int, control: seq<Frame>)
    requires Returning(sys) && s in sys.sender.streams && (control == [] || control == [Reset(s)])
    ensures Returning(SenderLeft(sys, s, control))
  {
    var after := SenderLeft(sys, s, control);
    FutureAfter(sys, Reset(s));
    assert sys.data + [] == sys.data;
    assert Future(after) == if control == [] then Future(sys) else Future(sys) - {s};
  }

  // -------------------------------------------------- the receiver's steps

  lemma CancelsStayComing(notices: seq<Notice>, n: Notice, s: int, from: int)
    requires CancelFrom(notices, s, from)
    ensures CancelFrom(notices + [n], s, from)
  {
    var j :| 0 <= j < |notices| && from < j && notices[j] == Cancel(s);
    assert (notices + [n])[j] == Cancel(s);
  }

  /** A notice more does not put off those on their way. */
  lemma NoticeKeepsCancels(sys: System, after: System, n: Notice)
    requires CancelsComing(sys) && after.notices == sys.notices + [n] && after.sender == sys.sender
    requires n.Announce? ==> n.streamId !in after.cancelled
    requires if n.Cancel? then after.cancelled == sys.cancelled + {n.streamId} else after.cancelled == sys.cancelled
    ensures CancelsComing(after)
  {
    var last := |sys.notices|;
    assert after.notices[last] == n;
    forall s | s in after.sender.streams && s in after.cancelled ensures CancelFrom(after.notices, s, -1) {
      if s in sys.cancelled {
        CancelsStayComing(sys.notices, n, s, -1);
      }
    }
    forall i | 0 <= i < |after.notices| && after.notices[i].Announce? && after.notices[i].streamId in after.cancelled
      ensures CancelFrom(after.notices, after.notices[i].streamId, i)
    {
      assert after.notices[i] == sys.notices[i];
      if after.notices[i].streamId in sys.cancelled {
        CancelsStayComing(sys.notices, n, after.notices[i].streamId, i);
      }
    }
  }

  lemma ReceiverOpenedReturns(sys: System, s: int, window: nat)
    requires Inv(sys) && Returning(sys) && s > 0 && window > 0 && s !in sys.windows
    ensures Returning(ReceiverOpened(sys, s, window))
  {
    var after := ReceiverOpened(sys, s, window);
    NewStreamIsUnknown(sys, s);
    ReceiverOpenedIsLinked(sys, s, window);
    ReplayWithNew(Held(sys.receiver), sys.data, s);
    NoticeKeepsCancels(sys, after, Announce(s, window));
    forall t | t in sys.sender.streams ensures Credited(after.notices, t) == Credited(sys.notices, t) {
      CreditedOfAppend(sys.notices, Announce(s, window), t);
    }
  }

  lemma ReceiverReleasedReturns(sys: System, s: int, bytes: nat)
    requires Inv(sys) && Returning(sys) && Enabled(sys, ReceiverReleases(s, bytes))
    ensures Returning(ReceiverReleased(sys, s, bytes))
  {
    var after := ReceiverReleased(sys, s, bytes);
    ReleasedFuture(sys, s, bytes);
    NoticeKeepsCancels(sys, after, Credit(s, bytes));
    forall t | t in sys.sender.streams && t != s ensures Credited(after.notices, t) == Credited(sys.notices, t) {
      CreditedOfAppend(sys.notices, Credit(s, bytes), t);
    }
  }

  /** When the receiver closes a drained stream, nothing of it is in flight or held. */
  lemma DrainedIsRepaid(sys: System, s: int)
    requires Inv(sys) && Enabled(sys, ReceiverCloses(s)) && s in sys.sender.streams
    ensures sys.sender.streams[s].outstanding == Credited(sys.notices, s)
  {
    UnmentionedBytes(sys.data, s);
    HeldStreamIsNotOpening(sys, s);
    ReplayKeepsStream(Held(sys.receiver), sys.data, s);
    ReplayOfStream(Held(sys.receiver), sys.data, s);
  }

  lemma ReceiverClosesReturns(sys: System, s: int)
    requires Inv(sys) && Returning(sys) && Enabled(sys, ReceiverCloses(s))
    ensures Returning(Receive(sys, G.CloseStream(s)))
  {
    var after := Receive(sys, G.CloseStream(s));
    ShutHeld(sys.receiver, s);
    WithoutFuture(sys, after, s);
    if s in sys.sender.streams {
      DrainedIsRepaid(sys, s);
    }
  }

  lemma ReceiverResetReturns(sys: System, s: int)
    requires Inv(sys) && Returning(sys) && s in sys.receiver.streams
    ensures Returning(ReceiverReset(sys, s))
  {
    var after := ReceiverReset(sys, s);
    ShutHeld(sys.receiver, s);
    WithoutFuture(sys, after, s);
    NoticeKeepsCancels(sys, after, Cancel(s));
    forall t | t in sys.sender.streams ensures Credited(after.notices, t) == Credited(sys.notices, t) {
      CreditedOfAppend(sys.notices, Cancel(s), t);
    }
  }

  lemma ReceiverResetsReturns(sys: System, s: int)
    requires Inv(sys) && sys.link.Up? && Returning(sys) && s in sys.receiver.streams
    ensures Returning(Step(sys, ReceiverResets(s)))
  {
    ReceiverResetReturns(sys, s);
    ReceiverResetsStep(sys, s);
    assert Future(Step(sys, ReceiverResets(s))) == Future(ReceiverReset(sys, s));
  }

  // -------------------------------------------------------------- arrivals

  /** What arrives at the receiver moves from flight to its hands and concerns the sender not at all. */
  lemma ArrivalReturns(sys: System, after: System)
    requires Returning(sys)
    requires after.sender == sys.sender && after.notices == sys.notices && after.cancelled == sys.cancelled
    requires Future(after) == Future(sys)
    ensures Returning(after)
  {
  }

  lemma FrameReturns(sys: System)
    requires Inv(sys) && sys.link.Up? && Returning(sys) && sys.data != []
    ensures var after := FrameArrives(sys.(data := sys.data[1..]), sys.data[0]);
            after.link.Up? ==> Returning(after)
  {
    var after := FrameArrives(sys.(data := sys.data[1..]), sys.data[0]);
    var f := sys.data[0];
    if f.Data? && f.streamId !in sys.receiver.streams {
      assert Held(after.receiver) == Held(sys.receiver) == After(Held(sys.receiver), f);
    } else {
      ArrivalHeld(sys);
    }
    if after.link.Up? {
      assert Future(after) == Future(sys);
      ArrivalReturns(sys, after);
    }
  }

  // ------------------------------------------------------ notices arriving

  lemma CancelsMoveUp(notices: seq<Notice>, s: int, from: int)
    requires notices != [] && CancelFrom(notices, s, from) && (from >= 0 || notices[0] != Cancel(s))
    ensures CancelFrom(notices[1..], s, from - 1)
  {
    var j :| 0 <= j < |notices| && from < j && notices[j] == Cancel(s);
    assert notices[1..][j - 1] == Cancel(s);
  }

  /** The first notice is read; whatever the sender does with it, later resets are still to come. */
  lemma PoppedCancels(sys: System, after: System)
    requires CancelsComing(sys) && sys.notices != [] && after.notices == sys.notices[1..]
    requires after.cancelled == sys.cancelled
    requires forall s | s in after.sender.streams && s in sys.cancelled ::
               || (s in sys.sender.streams && sys.notices[0] != Cancel(s))
               || (sys.notices[0].Announce? && sys.notices[0].streamId == s)
    ensures CancelsComing(after)
  {
    forall s | s in after.sender.streams && s in after.cancelled ensures CancelFrom(after.notices, s, -1) {
      if sys.notices[0].Announce? && sys.notices[0].streamId == s {
        CancelsMoveUp(sys.notices, s, 0);
      } else {
        CancelsMoveUp(sys.notices, s, -1);
        var j :| 0 <= j < |after.notices| && -2 < j && after.notices[j] == Cancel(s);
        assert CancelFrom(after.notices, s, -1);
      }
    }
    forall i | 0 <= i < |after.notices| && after.notices[i].Announce? && after.notices[i].streamId in after.cancelled
      ensures CancelFrom(after.notices, after.notices[i].streamId, i)
    {
      assert sys.notices[i + 1] == after.notices[i];
      CancelsMoveUp(sys.notices, after.notices[i].streamId, i + 1);
    }
  }

  lemma AnnouncementReturns(sys: System)
    requires Inv(sys) && Returning(sys) && sys.notices != [] && sys.notices[0].Announce?
    ensures Returning(AnnouncementHeard(sys))
  {
    var after := AnnouncementHeard(sys);
    AnnouncedStream(sys);
    assert Future(after) == Future(sys);
    PoppedCancels(sys, after);
  }

  lemma CreditReturns(sys: System)
    requires Inv(sys) && Returning(sys)
    requires sys.notices != [] && sys.notices[0].Credit? && sys.notices[0].streamId in sys.sender.streams
    requires sys.notices[0].bytes <= sys.sender.streams[sys.notices[0].streamId].outstanding
    ensures Returning(CreditHeard(sys))
  {
    var after := CreditHeard(sys);
    assert Future(after) == Future(sys);
    PoppedCancels(sys, after);
  }

  lemma DroppedReturns(sys: System)
    requires Returning(sys) && Useless(sys) && sys.notices[0].streamId !in sys.sender.streams
    ensures Returning(Popped(sys))
  {
    var after := Popped(sys);
    assert Future(after) == Future(sys);
    PoppedCancels(sys, after);
  }

  lemma CancelReturns(sys: System)
    requires Inv(sys) && Returning(sys)
    requires sys.notices != [] && sys.notices[0].Cancel? && sys.notices[0].streamId in sys.sender.streams
    ensures Returning(SenderLeft(Popped(sys), sys.notices[0].streamId, []))
  {
    var after := SenderLeft(Popped(sys), sys.notices[0].streamId, []);
    assert sys.data + [] == sys.data;
    assert Future(after) == Future(sys);
    PoppedCancels(sys, after);
  }

  // ------------------------------------------------------------- every step

  /** While the connection is up, credit returns and no request is parked that could be served. */
  ghost predicate Flowing(sys: System) {
    sys.link.Up? ==> Returning(sys) && F.Settled(sys.sender)
  }

  ghost predicate Steady(sys: System) {
    Safe(sys) && Flowing(sys)
  }

  lemma ServedIsSteady(sys: System, after: System)
    requires Inv(sys) && Returning(sys) && after == Served(sys)
    ensures Returning(after) && F.Settled(after.sender)
  {
    ServedReturns(sys);
    ServedSettles(sys);
  }

  lemma SenderOpensReturns(sys: System, s: int, window: nat)
    requires Inv(sys) && Returning(sys) && sys.link.Up? && Enabled(sys, SenderOpens(s, window))
    ensures var after := Step(sys, SenderOpens(s, window)); Returning(after) && F.Settled(after.sender)
  {
    NewStreamIsUnknown(sys, s);
    EmitServes(sys, F.OpenStream(s, window), [Open(s, window)]);
    SenderOpenedKeepsInv(sys, s, window);
    SenderOpenedReturns(sys, s, window);
    ServedIsSteady(SenderOpened(sys, s, window), Step(sys, SenderOpens(s, window)));
  }

  lemma SenderTakesReturns(sys: System, s: int, maximum: nat)
    requires Inv(sys) && Returning(sys) && sys.link.Up? && Enabled(sys, SenderTakes(s, maximum))
    ensures var after := Step(sys, SenderTakes(s, maximum)); Returning(after) && F.Settled(after.sender)
  {
    SenderTakesServes(sys, s, maximum);
    SenderAskedKeepsInv(sys, s, maximum);
    SenderAskedReturns(sys, s, maximum);
    ServedIsSteady(SenderAsked(sys, s, maximum), Step(sys, SenderTakes(s, maximum)));
  }

  lemma SenderLeavesReturns(sys: System, s: int, control: seq<Frame>)
    requires Inv(sys) && Returning(sys) && s in sys.sender.streams
    requires control == [Reset(s)] || (control == [] && (s in Future(sys) ==> Future(sys)[s] == 0))
    ensures var after := Emit(sys, F.CloseStream(s), control); Returning(after) && F.Settled(after.sender)
  {
    EmitServes(sys, F.CloseStream(s), control);
    if control == [] {
      SenderClosedKeepsInv(sys, s);
    } else {
      SenderResetKeepsInv(sys, s);
    }
    SenderLeftReturns(sys, s, control);
    ServedIsSteady(SenderLeft(sys, s, control), Emit(sys, F.CloseStream(s), control));
  }

  lemma AnnounceReturns(sys: System)
    requires Inv(sys) && Returning(sys) && sys.notices != [] && sys.notices[0].Announce?
    ensures var after := NoticeArrives(Popped(sys), sys.notices[0]); Returning(after) && F.Settled(after.sender)
  {
    EmitServes(Popped(sys), F.OpenStream(sys.notices[0].streamId, sys.notices[0].window), []);
    assert sys.data + [] == sys.data;
    AnnouncementKeepsInv(sys);
    AnnouncementReturns(sys);
    ServedIsSteady(AnnouncementHeard(sys), NoticeArrives(Popped(sys), sys.notices[0]));
  }

  lemma RefillReturns(sys: System)
    requires Inv(sys) && Returning(sys)
    requires sys.notices != [] && sys.notices[0].Credit? && sys.notices[0].streamId in sys.sender.streams
    ensures var after := NoticeArrives(Popped(sys), sys.notices[0]); Returning(after) && F.Settled(after.sender)
  {
    CreditIsAccepted(sys);
    EmitServes(Popped(sys), F.Update(sys.notices[0].streamId, sys.notices[0].bytes), []);
    assert sys.data + [] == sys.data;
    CreditKeepsInv(sys);
    CreditReturns(sys);
    ServedIsSteady(CreditHeard(sys), NoticeArrives(Popped(sys), sys.notices[0]));
  }

  lemma HeardCancelStep(sys: System)
    requires Inv(sys) && sys.notices != [] && sys.notices[0].Cancel? && sys.notices[0].streamId in sys.sender.streams
    ensures Inv(SenderLeft(Popped(sys), sys.notices[0].streamId, []))
  {
    DroppedNoticeKeepsInv(sys);
    CancelledHoldsNothing(Popped(sys), sys.notices[0].streamId);
    SenderClosedKeepsInv(Popped(sys), sys.notices[0].streamId);
  }

  lemma HeardCancelServes(sys: System)
    requires sys.notices != [] && sys.notices[0].Cancel? && sys.notices[0].streamId in sys.sender.streams
    ensures NoticeArrives(Popped(sys), sys.notices[0]) == Served(SenderLeft(Popped(sys), sys.notices[0].streamId, []))
  {
    EmitServes(Popped(sys), F.CloseStream(sys.notices[0].streamId), []);
  }

  lemma HeardCancelReturns(sys: System)
    requires Inv(sys) && Returning(sys)
    requires sys.notices != [] && sys.notices[0].Cancel? && sys.notices[0].streamId in sys.sender.streams
    ensures var after := NoticeArrives(Popped(sys), sys.notices[0]); Returning(after) && F.Settled(after.sender)
  {
    HeardCancelStep(sys);
    CancelReturns(sys);
    HeardCancelServes(sys);
    ServedIsSteady(SenderLeft(Popped(sys), sys.notices[0].streamId, []), NoticeArrives(Popped(sys), sys.notices[0]));
  }

  lemma NoticeReturns(sys: System)
    requires Inv(sys) && Returning(sys) && F.Settled(sys.sender) && sys.notices != []
    ensures var after := NoticeArrives(Popped(sys), sys.notices[0]); Returning(after) && F.Settled(after.sender)
  {
    if sys.notices[0].Announce? {
      AnnounceReturns(sys);
    } else if sys.notices[0].streamId !in sys.sender.streams {
      DroppedReturns(sys);
    } else if sys.notices[0].Credit? {
      RefillReturns(sys);
    } else {
      HeardCancelReturns(sys);
    }
  }

  lemma SenderOpensFlows(sys: System, s: int, window: nat)
    requires Safe(sys) && Flowing(sys)
    ensures Flowing(Step(sys, SenderOpens(s, window)))
  {
    if sys.link.Up? && Enabled(sys, SenderOpens(s, window)) {
      SenderOpensReturns(sys, s, window);
    }
  }

  lemma SenderTakesFlows(sys: System, s: int, maximum: nat)
    requires Safe(sys) && Flowing(sys)
    ensures Flowing(Step(sys, SenderTakes(s, maximum)))
  {
    if sys.link.Up? && Enabled(sys, SenderTakes(s, maximum)) {
      SenderTakesReturns(sys, s, maximum);
    }
  }

  lemma SenderEndsFlows(sys: System, s: int)
    requires Safe(sys) && Flowing(sys)
    ensures Flowing(Step(sys, SenderEnds(s)))
  {
    if sys.link.Up? && Enabled(sys, SenderEnds(s)) {
      SenderEndedReturns(sys, s);
    }
  }

  lemma SenderResetsFlows(sys: System, s: int)
    requires Safe(sys) && Flowing(sys)
    ensures Flowing(Step(sys, SenderResets(s)))
  {
    if sys.link.Up? && Enabled(sys, SenderResets(s)) {
      SenderLeavesReturns(sys, s, [Reset(s)]);
    }
  }

  lemma SenderClosesFlows(sys: System, s: int)
    requires Safe(sys) && Flowing(sys)
    ensures Flowing(Step(sys, SenderCloses(s)))
  {
    if sys.link.Up? && Enabled(sys, SenderCloses(s)) {
      NothingOutstanding(sys, s);
      SenderLeavesReturns(sys, s, []);
    }
  }

  lemma ReceiverOpensFlows(sys: System, s: int, window: nat)
    requires Safe(sys) && Flowing(sys)
    ensures Flowing(Step(sys, ReceiverOpens(s, window)))
  {
    if sys.link.Up? && Enabled(sys, ReceiverOpens(s, window)) {
      ReceiverOpenedReturns(sys, s, window);
      ReceiverOpensStep(sys, s, window);
    }
  }

  lemma ReceiverReleasesFlows(sys: System, s: int, bytes: nat)
    requires Safe(sys) && Flowing(sys)
    ensures Flowing(Step(sys, ReceiverReleases(s, bytes)))
  {
    if sys.link.Up? && Enabled(sys, ReceiverReleases(s, bytes)) {
      ReceiverReleasedReturns(sys, s, bytes);
    }
  }

  lemma ReceiverResetsFlows(sys: System, s: int)
    requires Safe(sys) && Flowing(sys)
    ensures Flowing(Step(sys, ReceiverResets(s)))
  {
    if sys.link.Up? && Enabled(sys, ReceiverResets(s)) {
      ReceiverResetsReturns(sys, s);
      ReceiverResetsStep(sys, s);
    }
  }

  lemma ReceiverClosesFlows(sys: System, s: int)
    requires Safe(sys) && Flowing(sys)
    ensures Flowing(Step(sys, ReceiverCloses(s)))
  {
    if sys.link.Up? && Enabled(sys, ReceiverCloses(s)) {
      ReceiverClosesReturns(sys, s);
    }
  }

  lemma FrameKeepsSender(sys: System, f: Frame)
    ensures FrameArrives(sys, f).sender == sys.sender
  {
  }

  lemma DeliverFrameFlows(sys: System)
    requires Safe(sys) && Flowing(sys)
    ensures Flowing(Step(sys, DeliverFrame))
  {
    if sys.link.Up? && sys.data != [] {
      FrameReturns(sys);
      FrameKeepsSender(sys.(data := sys.data[1..]), sys.data[0]);
      DeliverFrameStep(sys);
    }
  }

  lemma DeliverNoticeFlows(sys: System)
    requires Safe(sys) && Flowing(sys)
    ensures Flowing(Step(sys, DeliverNotice))
  {
    if sys.link.Up? && sys.notices != [] {
      NoticeReturns(sys);
      DeliverNoticeStep(sys);
    }
  }

  lemma StepFlows(sys: System, a: Action)
    requires Safe(sys) && Flowing(sys)
    ensures Flowing(Step(sys, a))
  {
    match a {
      case SenderOpens(s, window) => SenderOpensFlows(sys, s, window);
      case ReceiverOpens(s, window) => ReceiverOpensFlows(sys, s, window);
      case SenderTakes(s, maximum) => SenderTakesFlows(sys, s, maximum);
      case SenderEnds(s) => SenderEndsFlows(sys, s);
      case SenderResets(s) => SenderResetsFlows(sys, s);
      case SenderCloses(s) => SenderClosesFlows(sys, s);
      case ReceiverReleases(s, bytes) => ReceiverReleasesFlows(sys, s, bytes);
      case ReceiverResets(s) => ReceiverResetsFlows(sys, s);
      case ReceiverCloses(s) => ReceiverClosesFlows(sys, s);
      case DeliverFrame => DeliverFrameFlows(sys);
      case DeliverNotice => DeliverNoticeFlows(sys);
    }
  }

  lemma StepIsSteady(sys: System, a: Action)
    requires Steady(sys)
    ensures Steady(Step(sys, a))
  {
    StepIsSafe(sys, a);
    StepFlows(sys, a);
  }

  // ------------------------------------------------------------ whole runs

  lemma BeginIsSteady(initial: nat, maximumFrames: nat)
    ensures Steady(Begin(initial, maximumFrames))
  {
    BeginIsSafe(initial, maximumFrames);
  }

  lemma {:induction false} EveryRunIsSteady(sys: System, actions: seq<Action>)
    requires Steady(sys)
    ensures Steady(Run(sys, actions))
    decreases |actions|
  {
    if actions != [] {
      StepIsSteady(sys, actions[0]);
      EveryRunIsSteady(Step(sys, actions[0]), actions[1..]);
    }
  }

  /** Nothing in flight and nothing held at the receiver. */
  ghost predicate Idle(sys: System) {
    && sys.link.Up? && sys.data == [] && sys.notices == []
    && forall s | s in sys.receiver.streams :: sys.receiver.streams[s].outstanding == 0
  }

  lemma IdleOwesNothing(sys: System, s: int)
    requires Inv(sys) && Returning(sys) && Idle(sys) && s in sys.sender.streams
    ensures sys.sender.streams[s].outstanding == 0
  {
    assert Future(sys) == Held(sys.receiver);
    assert s in sys.cancelled ==> CancelFrom(sys.notices, s, -1);
  }

  /** An idle connection has every byte of its credit back, and then nobody waits. */
  lemma IdleIsWhole(sys: System)
    requires Inv(sys) && Returning(sys) && Idle(sys)
    ensures sys.sender.connection == sys.sender.initial
    ensures forall s | s in sys.sender.streams ::
              sys.sender.streams[s].outstanding == 0 && sys.sender.streams[s].available == sys.windows[s] > 0
  {
    forall s | s in sys.sender.streams ensures sys.sender.streams[s].outstanding == 0 {
      IdleOwesNothing(sys, s);
    }
    SumIsMonotone(F.Outstanding(sys.sender.streams), map[]);
  }

  lemma WholeHasNoWaiters(w: F.Window)
    requires F.Settled(w) && w.connection > 0 && forall s | s in w.streams :: w.streams[s].available > 0
    ensures w.waiters == []
  {
    assert w.waiters != [] ==> F.Starved(w, w.waiters[0]);
  }

  /**
   In every reachable state in which everything sent has arrived and the receiver
   holds nothing, the sender has its whole connection credit, every stream its
   whole window, and no request is parked.
   */
  lemma NothingLeaks(initial: nat, maximumFrames: nat, actions: seq<Action>)
    requires initial > 0
    ensures var sys := Run(Begin(initial, maximumFrames), actions);
            Idle(sys) ==>
              && sys.sender.connection == sys.sender.initial && sys.sender.waiters == []
              && forall s | s in sys.sender.streams ::
                   s in sys.windows && sys.sender.streams[s] == F.Credit(sys.windows[s], 0)
  {
    var sys := Run(Begin(initial, maximumFrames), actions);
    BeginIsSteady(initial, maximumFrames);
    EveryRunIsSteady(Begin(initial, maximumFrames), actions);
    RunKeepsInitial(Begin(initial, maximumFrames), actions);
    if Idle(sys) {
      IdleIsWhole(sys);
      WholeHasNoWaiters(sys.sender);
    }
  }

  lemma ApplyKeepsInitial(w: F.Window, op: F.Op)
    ensures F.Apply(w, op).window.initial == w.initial
  {
    match F.Prepare(w, op) {
      case Stop(_, _, _) =>
      case Serve(ready, _) => F.DrainFrame(ready, 0);
    }
  }

  lemma StepKeepsInitial(sys: System, a: Action)
    ensures Step(sys, a).sender.initial == sys.sender.initial
  {
    match a
    case SenderOpens(s, window) => ApplyKeepsInitial(sys.sender, F.OpenStream(s, window));
    case SenderTakes(s, maximum) => ApplyKeepsInitial(sys.sender, F.Take(s, maximum));
    case SenderResets(s) => ApplyKeepsInitial(sys.sender, F.CloseStream(s));
    case SenderCloses(s) => ApplyKeepsInitial(sys.sender, F.CloseStream(s));
    case DeliverNotice =>
      if sys.notices != [] {
        NoticeKeepsInitial(sys, sys.notices[0]);
      }
    case _ =>
  }

  lemma NoticeKeepsInitial(sys: System, n: Notice)
    ensures NoticeArrives(sys.(notices := sys.notices[if sys.notices == [] then 0 else 1..]), n).sender.initial
            == sys.sender.initial
  {
    match n
    case Announce(s, window) => ApplyKeepsInitial(sys.sender, F.OpenStream(s, window));
    case Credit(s, bytes) => ApplyKeepsInitial(sys.sender, F.Update(s, bytes));
    case Cancel(s) => ApplyKeepsInitial(sys.sender, F.CloseStream(s));
  }

  lemma {:induction false} RunKeepsInitial(sys: System, actions: seq<Action>)
    ensures Run(sys, actions).sender.initial == sys.sender.initial
    decreases |actions|
  {
    if actions != [] {
      StepKeepsInitial(sys, actions[0]);
      RunKeepsInitial(Step(sys, actions[0]), actions[1..]);
    }
  }
}
