/** Every step of the protocol keeps the invariant, so no honest DATA or credit is ever refused by a flow window. */
module CreditSafety {
  import opened Sums
  import opened Channel
  import opened CreditProtocol
  import F = FlowWindow
  import G = GatewayInbound
  import R = RetiredBudget

  // ------------------------------------------------- serving the queue

  lemma ServedFuture(sys: System)
    ensures var frames := DataFrames(F.Drain(sys.sender, 0).log);
            && Future(Served(sys)) == Replay(Future(sys), frames)
            && Future(Served(sys)).Keys == Future(sys).Keys
            && forall s | s in Future(sys) :: Future(Served(sys))[s] == Future(sys)[s] + Bytes(frames, s)
  {
    var frames := DataFrames(F.Drain(sys.sender, 0).log);
    ReplayOfConcat(Held(sys.receiver), sys.data, frames);
    DrainEmits(sys.sender, 0);
    ReplayOfData(Future(sys), frames);
  }

  lemma ServedIsLinked(sys: System)
    requires Linked(sys)
    ensures Linked(Served(sys))
  {
    ServedFuture(sys);
    DrainEmits(sys.sender, 0);
    var frames := DataFrames(F.Drain(sys.sender, 0).log);
    forall s | s in Future(sys) && s !in sys.sender.streams ensures Bytes(frames, s) == 0 {
      UnmentionedBytes(frames, s);
    }
  }

  lemma ServedIsValid(sys: System)
    requires WindowsValid(sys)
    ensures WindowsValid(Served(sys))
  {
    F.DrainSettles(sys.sender, 0);
    F.DrainConserves(sys.sender, sys.windows, 0);
    F.DrainFrame(sys.sender, 0);
  }

  /** The sender's own accounts bound what the receiver will hold. */
  lemma LinkedBoundsFuture(sys: System)
    requires WindowsValid(sys) && Linked(sys)
    requires forall s | s in Future(sys) :: s in sys.windows
    ensures Within(Future(sys), sys.windows, sys.receiver.initial)
  {
    SumIsMonotone(Future(sys), F.Outstanding(sys.sender.streams));
  }

  lemma ServedIsPaced(sys: System)
    requires WindowsValid(sys) && Linked(sys) && Paced(sys) && EndsLast(sys)
    ensures Paced(Served(sys))
  {
    var frames := DataFrames(F.Drain(sys.sender, 0).log);
    ServedFuture(sys);
    ServedIsLinked(sys);
    ServedIsValid(sys);
    FitsEnds(Held(sys.receiver), sys.data, sys.windows, sys.cancelled, sys.receiver.initial);
    LinkedBoundsFuture(Served(sys));
    DrainEmits(sys.sender, 0);
    forall i | 0 <= i < |frames|
      ensures frames[i].Data? && frames[i].bytes > 0
      ensures frames[i].streamId in Future(sys) || frames[i].streamId in sys.cancelled
    {
      assert frames[i].streamId in Wanted(sys.sender.waiters);
    }
    FitsAppendData(Held(sys.receiver), sys.data, frames, sys.windows, sys.cancelled, sys.receiver.initial);
  }

  lemma ServedIsNamed(sys: System)
    requires Named(sys)
    ensures Named(Served(sys))
  {
    var frames := DataFrames(F.Drain(sys.sender, 0).log);
    DrainEmits(sys.sender, 0);
    F.DrainFrame(sys.sender, 0);
    var after := Served(sys);
    forall i | 0 <= i < |after.data|
      ensures i < |sys.data| ==> after.data[i] == sys.data[i]
      ensures i >= |sys.data| ==>
                && after.data[i].Data? && after.data[i].streamId in sys.sender.streams
                && after.data[i].streamId !in sys.finished
    {
      if i >= |sys.data| {
        assert after.data[i] == frames[i - |sys.data|];
        assert after.data[i].streamId in Wanted(sys.sender.waiters);
      }
    }
    forall i | 0 <= i < |after.sender.waiters| ensures after.sender.waiters[i].streamId !in sys.finished {
      assert after.sender.waiters[i] in sys.sender.waiters;
    }
    ServedNames(sys, after);
  }

  /** Adding DATA of streams the sender has open leaves all names in order. */
  lemma ServedNames(sys: System, after: System)
    requires Named(sys)
    requires after == sys.(sender := after.sender, data := after.data)
    requires after.sender.streams.Keys == sys.sender.streams.Keys
    requires |sys.data| <= |after.data|
    requires forall i | 0 <= i < |after.sender.waiters| :: after.sender.waiters[i].streamId !in sys.finished
    requires forall i | 0 <= i < |sys.data| :: after.data[i] == sys.data[i]
    requires forall i | |sys.data| <= i < |after.data| ::
               && after.data[i].Data? && after.data[i].streamId in sys.sender.streams
               && after.data[i].streamId !in sys.finished
    ensures Named(after)
  {
    assert FramesNamed(after);
    assert EndsLast(after);
    assert forall s | !Mentions(sys.data, s) && s !in sys.sender.streams :: !Mentions(after.data, s);
  }

  lemma ServedIsCovered(sys: System)
    requires SetsNamed(sys) && EndsLast(sys) && LateCovered(sys)
    ensures LateCovered(Served(sys))
  {
    var frames := DataFrames(F.Drain(sys.sender, 0).log);
    DrainEmits(sys.sender, 0);
    F.DrainFrame(sys.sender, 0);
    forall s | s in sys.covered && s !in sys.lost
      ensures Bytes(Served(sys).data, s) + Potential(Served(sys), s) == Bytes(sys.data, s) + Potential(sys, s)
    {
      BytesOfConcat(sys.data, frames, s);
      if s !in sys.sender.streams || s in sys.finished {
        UnmentionedBytes(frames, s);
      }
      assert Announced(Served(sys), s) == Announced(sys, s);
    }
  }

  lemma ServedKeepsInv(sys: System)
    requires Inv(sys)
    ensures Inv(Served(sys))
  {
    ServedIsValid(sys);
    ServedIsLinked(sys);
    ServedIsPaced(sys);
    ServedIsNamed(sys);
    ServedIsCovered(sys);
  }

  // ---------------------------------------------------- the sender's steps

  lemma ReplayOfOne(load: Load, f: Frame)
    ensures Replay(load, [f]) == After(load, f)
  {
    assert [f][1..] == [];
  }

  lemma FutureAfter(sys: System, f: Frame)
    ensures Future(sys.(data := sys.data + [f])) == After(Future(sys), f)
  {
    ReplayOfConcat(Held(sys.receiver), sys.data, [f]);
    ReplayOfOne(Future(sys), f);
  }

  lemma BytesAfter(frames: seq<Frame>, f: Frame, s: int)
    ensures Bytes(frames + [f], s) == Bytes(frames, s) + (if f.Data? && f.streamId == s then f.bytes else 0)
  {
    BytesOfConcat(frames, [f], s);
    assert [f][1..] == [];
  }

  /** Nothing in flight names a stream that does not exist yet. */
  lemma NewStreamIsUnknown(sys: System, s: int)
    requires Inv(sys) && s !in sys.windows
    ensures s !in sys.sender.streams && s !in sys.receiver.streams && s !in Held(sys.receiver)
    ensures !Mentions(sys.data, s) && !Announced(sys, s) && Credited(sys.notices, s) == 0
    ensures s !in Future(sys)
  {
    UnmentionedCredit(sys.notices, s);
    ReplayOfStream(Held(sys.receiver), sys.data, s);
  }

  function SenderOpened(sys: System, s: int, window: nat): System {
    sys.(sender := sys.sender.(streams := sys.sender.streams[s := F.Credit(window, 0)]),
         data := sys.data + [Open(s, window)],
         windows := sys.windows[s := window])
  }

  lemma SenderOpenedIsPaced(sys: System, s: int, window: nat)
    requires Inv(sys) && s > 0 && window > 0 && s !in sys.windows
    ensures Paced(SenderOpened(sys, s, window))
  {
    var windows := sys.windows[s := window];
    var limit := sys.receiver.initial;
    NewStreamIsUnknown(sys, s);
    FitsWithNew(Held(sys.receiver), sys.data, sys.windows, sys.cancelled, limit, s, window);
    FitsEnds(Held(sys.receiver), sys.data, windows, sys.cancelled, limit);
    SumOfUpdate(Future(sys), s, 0);
    FitsAppend(Held(sys.receiver), sys.data, Open(s, window), windows, sys.cancelled, limit);
  }

  lemma SenderOpenedIsLinked(sys: System, s: int, window: nat)
    requires Inv(sys) && s !in sys.windows
    ensures Linked(SenderOpened(sys, s, window))
  {
    NewStreamIsUnknown(sys, s);
    FutureAfter(sys, Open(s, window));
    assert Future(SenderOpened(sys, s, window)) == Future(sys)[s := 0];
  }

  lemma SenderOpenedIsNamed(sys: System, s: int, window: nat)
    requires Named(sys) && s !in sys.windows && s !in sys.receiver.streams && !Mentions(sys.data, s)
    ensures Named(SenderOpened(sys, s, window))
  {
    var after := SenderOpened(sys, s, window);
    assert forall t | !Mentions(sys.data, t) && t != s :: !Mentions(after.data, t);
    assert FramesNamed(after);
    assert NoticesNamed(after);
  }

  lemma SenderOpenedIsCovered(sys: System, s: int, window: nat)
    requires SetsNamed(sys) && LateCovered(sys) && s !in sys.windows
    ensures LateCovered(SenderOpened(sys, s, window))
  {
    var after := SenderOpened(sys, s, window);
    forall t | t in sys.covered && t !in sys.lost
      ensures Bytes(after.data, t) + Potential(after, t) == Bytes(sys.data, t) + Potential(sys, t)
    {
      BytesAfter(sys.data, Open(s, window), t);
      assert Announced(after, t) == Announced(sys, t);
    }
  }

  lemma SenderOpenedKeepsInv(sys: System, s: int, window: nat)
    requires Inv(sys) && s > 0 && window > 0 && s !in sys.windows
    ensures Inv(SenderOpened(sys, s, window))
  {
    NewStreamIsUnknown(sys, s);
    F.OpeningConserves(sys.sender, sys.windows, s, window);
    assert WindowsValid(SenderOpened(sys, s, window));
    SenderOpenedIsLinked(sys, s, window);
    SenderOpenedIsPaced(sys, s, window);
    SenderOpenedIsNamed(sys, s, window);
    SenderOpenedIsCovered(sys, s, window);
  }

  function SenderAsked(sys: System, s: int, maximum: nat): System {
    sys.(sender := sys.sender.(waiters := sys.sender.waiters + [F.Waiter(sys.sender.issued, s, maximum)],
                               issued := sys.sender.issued + 1))
  }

  lemma SenderAskedIsNamed(sys: System, s: int, maximum: nat)
    requires Named(sys) && s !in sys.finished
    ensures Named(SenderAsked(sys, s, maximum))
  {
  }

  lemma SenderAskedIsLinked(sys: System, s: int, maximum: nat)
    requires WindowsValid(sys) && Linked(sys) && Paced(sys) && maximum > 0
    ensures var after := SenderAsked(sys, s, maximum); WindowsValid(after) && Linked(after) && Paced(after)
  {
    assert Future(SenderAsked(sys, s, maximum)) == Future(sys);
  }

  lemma SenderAskedIsCovered(sys: System, s: int, maximum: nat)
    requires LateCovered(sys)
    ensures LateCovered(SenderAsked(sys, s, maximum))
  {
    var after := SenderAsked(sys, s, maximum);
    forall t | t in sys.covered ensures Potential(after, t) == Potential(sys, t) {
      assert Announced(after, t) == Announced(sys, t);
    }
  }

  lemma SenderAskedKeepsInv(sys: System, s: int, maximum: nat)
    requires Inv(sys) && maximum > 0 && s !in sys.finished
    ensures Inv(SenderAsked(sys, s, maximum))
  {
    SenderAskedIsNamed(sys, s, maximum);
    SenderAskedIsLinked(sys, s, maximum);
    SenderAskedIsCovered(sys, s, maximum);
  }

  function SenderEnded(sys: System, s: int): System {
    sys.(data := sys.data + [End(s)], finished := sys.finished + {s})
  }

  lemma SenderEndedFrames(sys: System, s: int)
    requires FramesNamed(sys) && SetsNamed(sys) && s in sys.sender.streams
    ensures FramesNamed(SenderEnded(sys, s)) && SetsNamed(SenderEnded(sys, s))
  {
  }

  lemma SenderEndedNotices(sys: System, s: int)
    requires NoticesNamed(sys) && s in sys.sender.streams
    ensures NoticesNamed(SenderEnded(sys, s))
  {
    assert forall t | !Mentions(sys.data, t) && t != s :: !Mentions(SenderEnded(sys, s).data, t);
  }

  lemma SenderEndedLast(sys: System, s: int)
    requires EndsLast(sys) && SetsNamed(sys) && s !in sys.finished && !Waiting(sys.sender, s)
    ensures EndsLast(SenderEnded(sys, s))
  {
  }

  lemma SenderEndedIsNamed(sys: System, s: int)
    requires Named(sys) && s in sys.sender.streams && s !in sys.finished && !Waiting(sys.sender, s)
    ensures Named(SenderEnded(sys, s))
  {
    SenderEndedFrames(sys, s);
    SenderEndedNotices(sys, s);
    SenderEndedLast(sys, s);
  }

  lemma SenderEndedIsCovered(sys: System, s: int)
    requires WindowsValid(sys) && LateCovered(sys)
    ensures LateCovered(SenderEnded(sys, s))
  {
    var after := SenderEnded(sys, s);
    PotentialIsNatural(sys, s);
    forall t | t in sys.covered && t !in sys.lost
      ensures Bytes(after.data, t) + Potential(after, t) <= Bytes(sys.data, t) + Potential(sys, t)
    {
      BytesAfter(sys.data, End(s), t);
      assert Announced(after, t) == Announced(sys, t);
    }
  }

  lemma SenderEndedIsLinked(sys: System, s: int)
    requires WindowsValid(sys) && Linked(sys) && Paced(sys)
    ensures var after := SenderEnded(sys, s); WindowsValid(after) && Linked(after) && Paced(after)
  {
    FutureAfter(sys, End(s));
    assert Future(SenderEnded(sys, s)) == Future(sys);
    FitsEnds(Held(sys.receiver), sys.data, sys.windows, sys.cancelled, sys.receiver.initial);
    FitsAppend(Held(sys.receiver), sys.data, End(s), sys.windows, sys.cancelled, sys.receiver.initial);
  }

  lemma SenderEndedKeepsInv(sys: System, s: int)
    requires Inv(sys) && s in sys.sender.streams && s !in sys.finished && !Waiting(sys.sender, s)
    ensures Inv(SenderEnded(sys, s))
  {
    SenderEndedIsLinked(sys, s);
    SenderEndedIsNamed(sys, s);
    SenderEndedIsCovered(sys, s);
  }

  /** The sender has let go of a stream; `control` is the RESET it sends, or nothing. */
  function SenderLeft(sys: System, s: int, control: seq<Frame>): System
    requires s in sys.sender.streams
  {
    sys.(sender := F.Prepare(sys.sender, F.CloseStream(s)).window, data := sys.data + control)
  }

  lemma PotentialIsNatural(sys: System, s: int)
    requires WindowsValid(sys)
    ensures Potential(sys, s) >= 0
  {
    if s in sys.sender.streams {
      SumBoundsEachKey(F.Outstanding(sys.sender.streams), s);
    }
  }

  lemma SenderLeftIsValid(sys: System, s: int, control: seq<Frame>)
    requires WindowsValid(sys) && s in sys.sender.streams
    ensures WindowsValid(SenderLeft(sys, s, control))
  {
    F.ClosingConserves(sys.sender, sys.windows, s);
    F.QueueAfterClosing(sys.sender, s);
  }

  lemma SenderLeftIsNamed(sys: System, s: int, control: seq<Frame>)
    requires Named(sys) && s in sys.sender.streams
    requires control == [] || control == [Reset(s)]
    ensures Named(SenderLeft(sys, s, control))
  {
    var after := SenderLeft(sys, s, control);
    F.KeptMembers(sys.sender.waiters, s);
    forall i | 0 <= i < |after.sender.waiters| ensures after.sender.waiters[i].streamId !in sys.finished {
      assert after.sender.waiters[i] in sys.sender.waiters;
    }
    assert forall t | !Mentions(sys.data, t) && t != s :: !Mentions(after.data, t);
    assert FramesNamed(after);
    assert EndsLast(after);
  }

  lemma SenderLeftIsCovered(sys: System, s: int, control: seq<Frame>)
    requires Inv(sys) && s in sys.sender.streams
    requires control == [] || control == [Reset(s)]
    ensures LateCovered(SenderLeft(sys, s, control))
  {
    var after := SenderLeft(sys, s, control);
    PotentialIsNatural(sys, s);
    assert sys.data + [] == sys.data;
    forall t | t in sys.covered && t !in sys.lost
      ensures Bytes(after.data, t) + Potential(after, t) <= Bytes(sys.data, t) + Potential(sys, t)
    {
      BytesAfter(sys.data, Reset(s), t);
      assert Announced(after, t) == Announced(sys, t);
      assert !Announced(sys, s);
    }
  }

  lemma SenderResetIsLinked(sys: System, s: int)
    requires Linked(sys) && Paced(sys) && s in sys.sender.streams
    ensures Linked(SenderLeft(sys, s, [Reset(s)])) && Paced(SenderLeft(sys, s, [Reset(s)]))
  {
    var after := SenderLeft(sys, s, [Reset(s)]);
    FutureAfter(sys, Reset(s));
    assert Future(after) == Future(sys) - {s};
    FitsEnds(Held(sys.receiver), sys.data, sys.windows, sys.cancelled, sys.receiver.initial);
    WithinBelow(Future(sys) - {s}, Future(sys), sys.windows, sys.receiver.initial);
    FitsAppend(Held(sys.receiver), sys.data, Reset(s), sys.windows, sys.cancelled, sys.receiver.initial);
  }

  lemma SenderResetKeepsInv(sys: System, s: int)
    requires Inv(sys) && s in sys.sender.streams
    ensures Inv(SenderLeft(sys, s, [Reset(s)]))
  {
    SenderLeftIsValid(sys, s, [Reset(s)]);
    SenderLeftIsNamed(sys, s, [Reset(s)]);
    SenderLeftIsCovered(sys, s, [Reset(s)]);
    SenderResetIsLinked(sys, s);
  }

  lemma SenderClosedIsLinked(sys: System, s: int)
    requires Linked(sys) && Paced(sys) && s in sys.sender.streams
    requires s in Future(sys) ==> Future(sys)[s] == 0
    ensures Linked(SenderLeft(sys, s, [])) && Paced(SenderLeft(sys, s, []))
  {
    var after := SenderLeft(sys, s, []);
    assert after.data == sys.data && Future(after) == Future(sys);
  }

  /** Letting go silently is sound when no byte of the stream is in flight or held. */
  lemma SenderClosedKeepsInv(sys: System, s: int)
    requires Inv(sys) && s in sys.sender.streams
    requires s in Future(sys) ==> Future(sys)[s] == 0
    ensures Inv(SenderLeft(sys, s, []))
  {
    SenderLeftIsValid(sys, s, []);
    SenderLeftIsNamed(sys, s, []);
    SenderLeftIsCovered(sys, s, []);
    SenderClosedIsLinked(sys, s);
  }

  // -------------------------------------------------- the receiver's steps

  function ReceiverOpened(sys: System, s: int, window: nat): System {
    Receive(sys, G.Open(s, window)).(
      notices := sys.notices + [Announce(s, window)],
      windows := sys.windows[s := window])
  }

  lemma ReceiverOpenedIsLinked(sys: System, s: int, window: nat)
    requires Inv(sys) && s > 0 && window > 0 && s !in sys.windows
    ensures Held(ReceiverOpened(sys, s, window).receiver) == Held(sys.receiver)[s := 0]
    ensures Linked(ReceiverOpened(sys, s, window))
  {
    var after := ReceiverOpened(sys, s, window);
    NewStreamIsUnknown(sys, s);
    assert Held(after.receiver) == Held(sys.receiver)[s := 0];
    ReplayWithNew(Held(sys.receiver), sys.data, s);
    forall t | t in sys.sender.streams ensures Credited(after.notices, t) == Credited(sys.notices, t) {
      CreditedOfAppend(sys.notices, Announce(s, window), t);
    }
  }

  lemma ReceiverOpenedIsNamed(sys: System, s: int, window: nat)
    requires Named(sys) && s > 0 && window > 0 && s !in sys.windows && s !in sys.receiver.streams
    ensures Named(ReceiverOpened(sys, s, window))
  {
    var after := ReceiverOpened(sys, s, window);
    assert after.receiver.streams == sys.receiver.streams[s := G.Credit(window, window, 0)];
    assert after.receiver.retired == sys.receiver.retired;
    assert !Mentions(sys.data, s);
    assert FramesNamed(after);
    assert NoticesNamed(after);
  }

  lemma ReceiverOpenedIsCovered(sys: System, s: int, window: nat)
    requires Inv(sys) && s > 0 && window > 0 && s !in sys.windows
    ensures LateCovered(ReceiverOpened(sys, s, window))
  {
    var after := ReceiverOpened(sys, s, window);
    forall t | t in sys.covered && t !in sys.lost ensures Potential(after, t) == Potential(sys, t) {
      CreditedOfAppend(sys.notices, Announce(s, window), t);
      AnnouncedAfter(sys, after, Announce(s, window), t);
    }
  }

  lemma AnnouncedAfter(sys: System, after: System, n: Notice, t: int)
    requires after.notices == sys.notices + [n]
    ensures Announced(after, t) == (Announced(sys, t) || (n.Announce? && n.streamId == t))
  {
    if Announced(sys, t) {
      var i :| 0 <= i < |sys.notices| && sys.notices[i].Announce? && sys.notices[i].streamId == t;
      assert after.notices[i] == sys.notices[i];
    }
    assert after.notices[|sys.notices|] == n;
  }

  lemma ReceiverOpenedIsValid(sys: System, s: int, window: nat)
    requires WindowsValid(sys) && s > 0 && window > 0 && s !in sys.windows
    ensures WindowsValid(ReceiverOpened(sys, s, window))
  {
    G.ApplyKeepsValid(sys.receiver, G.Open(s, window));
  }

  lemma ReceiverOpenedIsPaced(sys: System, s: int, window: nat)
    requires Paced(sys) && !Mentions(sys.data, s) && s !in Held(sys.receiver) && s !in sys.windows
    requires Held(ReceiverOpened(sys, s, window).receiver) == Held(sys.receiver)[s := 0]
    requires ReceiverOpened(sys, s, window).receiver.initial == sys.receiver.initial
    ensures Paced(ReceiverOpened(sys, s, window))
  {
    FitsWithNew(Held(sys.receiver), sys.data, sys.windows, sys.cancelled, sys.receiver.initial, s, window);
  }

  lemma ReceiverOpenedKeepsInv(sys: System, s: int, window: nat)
    requires Inv(sys) && s > 0 && window > 0 && s !in sys.windows
    ensures Inv(ReceiverOpened(sys, s, window))
  {
    NewStreamIsUnknown(sys, s);
    ReceiverOpenedIsValid(sys, s, window);
    ReceiverOpenedIsLinked(sys, s, window);
    ReceiverOpenedIsPaced(sys, s, window);
    ReceiverOpenedIsNamed(sys, s, window);
    ReceiverOpenedIsCovered(sys, s, window);
  }

  function ReceiverReleased(sys: System, s: int, bytes: nat): System {
    Receive(sys, G.Release(s, bytes)).(notices := sys.notices + [Credit(s, bytes)])
  }

  lemma HeldStreamIsNotOpening(sys: System, s: int)
    requires FramesNamed(sys) && s in sys.receiver.streams
    ensures !Opens(sys.data, s)
  {
  }

  lemma ReleasedHeld(g: G.Inbound, s: int, bytes: nat)
    requires G.Valid(g) && s in g.streams && 0 < bytes <= g.streams[s].outstanding
    ensures var after := G.Apply(g, G.Release(s, bytes)).state;
            && Held(after) == Held(g)[s := Held(g)[s] - bytes]
            && after.initial == g.initial && after.retired == g.retired
  {
    G.ApplyKeepsValid(g, G.Release(s, bytes));
  }

  lemma ReleasedFuture(sys: System, s: int, bytes: nat)
    requires G.Valid(sys.receiver) && FramesNamed(sys) && Enabled(sys, ReceiverReleases(s, bytes))
    ensures var after := ReceiverReleased(sys, s, bytes);
            && Held(after.receiver) == Held(sys.receiver)[s := Held(sys.receiver)[s] - bytes]
            && Future(after).Keys == Future(sys).Keys
            && (s in Future(sys) ==> Future(after)[s] == Future(sys)[s] - bytes)
            && (forall t | t in Future(sys) && t != s :: Future(after)[t] == Future(sys)[t])
            && (s in sys.sender.streams ==> s in Future(sys))
  {
    ReleasedHeld(sys.receiver, s, bytes);
    HeldStreamIsNotOpening(sys, s);
    ReplayLowered(Held(sys.receiver), sys.data, s, bytes);
    if s in sys.sender.streams {
      ReplayKeepsStream(Held(sys.receiver), sys.data, s);
    }
  }

  lemma ReceiverReleasedIsLinked(sys: System, s: int, bytes: nat)
    requires G.Valid(sys.receiver) && FramesNamed(sys) && Linked(sys) && Enabled(sys, ReceiverReleases(s, bytes))
    ensures Linked(ReceiverReleased(sys, s, bytes))
  {
    var after := ReceiverReleased(sys, s, bytes);
    ReleasedFuture(sys, s, bytes);
    forall t | t in sys.sender.streams
      ensures Credited(after.notices, t) == Credited(sys.notices, t) + (if t == s then bytes else 0)
    {
      CreditedOfAppend(sys.notices, Credit(s, bytes), t);
    }
  }

  lemma ReceiverReleasedIsCovered(sys: System, s: int, bytes: nat)
    requires Inv(sys) && Enabled(sys, ReceiverReleases(s, bytes))
    ensures LateCovered(ReceiverReleased(sys, s, bytes))
  {
    var after := ReceiverReleased(sys, s, bytes);
    forall t | t in sys.covered && t !in sys.lost ensures Potential(after, t) == Potential(sys, t) {
      CreditedOfAppend(sys.notices, Credit(s, bytes), t);
      AnnouncedAfter(sys, after, Credit(s, bytes), t);
    }
  }

  lemma ReceiverReleasedIsNamed(sys: System, s: int, bytes: nat)
    requires Named(sys) && Enabled(sys, ReceiverReleases(s, bytes)) && s in sys.windows
    ensures Named(ReceiverReleased(sys, s, bytes))
  {
    var after := ReceiverReleased(sys, s, bytes);
    assert after.receiver.retired == sys.receiver.retired;
    assert after.receiver.streams.Keys == sys.receiver.streams.Keys;
    assert FramesNamed(after);
    assert NoticesNamed(after);
  }

  lemma ReceiverReleasedIsValid(sys: System, s: int, bytes: nat)
    requires WindowsValid(sys) && Enabled(sys, ReceiverReleases(s, bytes))
    ensures WindowsValid(ReceiverReleased(sys, s, bytes))
  {
    G.ApplyKeepsValid(sys.receiver, G.Release(s, bytes));
  }

  lemma ReceiverReleasedIsPaced(sys: System, s: int, bytes: nat)
    requires G.Valid(sys.receiver) && Paced(sys) && Enabled(sys, ReceiverReleases(s, bytes))
    ensures Paced(ReceiverReleased(sys, s, bytes))
  {
    ReleasedHeld(sys.receiver, s, bytes);
    FitsBelow(Held(ReceiverReleased(sys, s, bytes).receiver), Held(sys.receiver), sys.data, sys.windows,
      sys.cancelled, sys.cancelled, sys.receiver.initial);
  }

  lemma ReceiverReleasedKeepsInv(sys: System, s: int, bytes: nat)
    requires Inv(sys) && Enabled(sys, ReceiverReleases(s, bytes))
    ensures Inv(ReceiverReleased(sys, s, bytes))
  {
    ReceiverReleasedIsValid(sys, s, bytes);
    ReceiverReleasedIsLinked(sys, s, bytes);
    ReceiverReleasedIsPaced(sys, s, bytes);
    ReceiverReleasedIsNamed(sys, s, bytes);
    ReceiverReleasedIsCovered(sys, s, bytes);
  }

  /** The receiver has let go of a stream, by a reset or after its END. */
  lemma WithoutFuture(sys: System, after: System, s: int)
    requires FramesNamed(sys) && s in sys.receiver.streams
    requires after.data == sys.data && Held(after.receiver) == Held(sys.receiver) - {s}
    ensures Future(after) == Future(sys) - {s}
  {
    HeldStreamIsNotOpening(sys, s);
    ReplayWithout(Held(sys.receiver), sys.data, s);
  }

  lemma ShutHeld(g: G.Inbound, s: int)
    requires G.Valid(g) && s in g.streams
    ensures Held(G.Apply(g, G.CloseStream(s)).state) == Held(g) - {s}
    ensures Held(G.Apply(g, G.Retire(s)).state) == Held(g) - {s}
  {
  }

  lemma ReceiverClosesIsLinked(sys: System, s: int)
    requires Inv(sys) && Enabled(sys, ReceiverCloses(s))
    ensures Linked(Receive(sys, G.CloseStream(s))) && Paced(Receive(sys, G.CloseStream(s)))
  {
    var after := Receive(sys, G.CloseStream(s));
    ShutHeld(sys.receiver, s);
    WithoutFuture(sys, after, s);
    assert Linked(after);
    FitsBelow(Held(after.receiver), Held(sys.receiver), sys.data, sys.windows, sys.cancelled, sys.cancelled,
      sys.receiver.initial);
  }

  lemma ShutStreams(g: G.Inbound, s: int)
    requires s in g.streams
    ensures G.Apply(g, G.CloseStream(s)).state.streams == g.streams - {s}
    ensures G.Apply(g, G.CloseStream(s)).state.retired == g.retired
  {
  }

  lemma ReceiverClosesKeepsFrames(sys: System, s: int)
    requires FramesNamed(sys) && SetsNamed(sys) && EndsLast(sys) && s in sys.receiver.streams
    ensures var after := Receive(sys, G.CloseStream(s)); FramesNamed(after) && SetsNamed(after) && EndsLast(after)
  {
    ShutStreams(sys.receiver, s);
  }

  lemma ReceiverClosesKeepsNotices(sys: System, s: int)
    requires NoticesNamed(sys) && SetsNamed(sys) && s in sys.receiver.streams && s in sys.drained
    ensures NoticesNamed(Receive(sys, G.CloseStream(s)))
  {
    ShutStreams(sys.receiver, s);
  }

  lemma ReceiverClosesIsValid(sys: System, s: int)
    requires WindowsValid(sys)
    ensures WindowsValid(Receive(sys, G.CloseStream(s)))
  {
    G.ApplyKeepsValid(sys.receiver, G.CloseStream(s));
  }

  lemma ReceiverClosesIsCovered(sys: System, s: int)
    requires LateCovered(sys) && s in sys.receiver.streams
    ensures LateCovered(Receive(sys, G.CloseStream(s)))
  {
    var after := Receive(sys, G.CloseStream(s));
    ShutStreams(sys.receiver, s);
    forall t | t in sys.covered && t !in sys.lost ensures Potential(after, t) == Potential(sys, t) {
      assert Announced(after, t) == Announced(sys, t);
    }
  }

  lemma ReceiverClosesKeepsInv(sys: System, s: int)
    requires Inv(sys) && Enabled(sys, ReceiverCloses(s))
    ensures Inv(Receive(sys, G.CloseStream(s)))
  {
    ReceiverClosesIsValid(sys, s);
    ReceiverClosesIsLinked(sys, s);
    ReceiverClosesKeepsFrames(sys, s);
    ReceiverClosesKeepsNotices(sys, s);
    ReceiverClosesIsCovered(sys, s);
  }

  function ReceiverReset(sys: System, s: int): System
    requires s in sys.receiver.streams
  {
    Receive(sys, G.Retire(s)).(
      notices := sys.notices + [Cancel(s)],
      cancelled := sys.cancelled + {s},
      lost := sys.lost + LostByRetiring(sys.receiver.retired, s, G.LateAllowance(sys.receiver, s)))
  }

  lemma ReceiverResetIsLinked(sys: System, s: int)
    requires G.Valid(sys.receiver) && FramesNamed(sys) && Linked(sys) && s in sys.receiver.streams
    ensures Linked(ReceiverReset(sys, s))
  {
    var after := ReceiverReset(sys, s);
    ShutHeld(sys.receiver, s);
    WithoutFuture(sys, after, s);
    forall t | t in sys.sender.streams ensures Credited(after.notices, t) == Credited(sys.notices, t) {
      CreditedOfAppend(sys.notices, Cancel(s), t);
    }
  }

  lemma ReceiverResetIsPaced(sys: System, s: int)
    requires G.Valid(sys.receiver) && Paced(sys) && s in sys.receiver.streams
    ensures Paced(ReceiverReset(sys, s))
  {
    var after := ReceiverReset(sys, s);
    ShutHeld(sys.receiver, s);
    FitsBelow(Held(after.receiver), Held(sys.receiver), sys.data, sys.windows,
      sys.cancelled, after.cancelled, sys.receiver.initial);
  }

  lemma ReceiverResetIsNamed(sys: System, s: int)
    requires Named(sys) && s in sys.receiver.streams && s in sys.windows
    ensures Named(ReceiverReset(sys, s))
  {
    var after := ReceiverReset(sys, s);
    HeldStreamIsNotOpening(sys, s);
    assert after.receiver.retired == R.Allow(sys.receiver.retired, s, G.LateAllowance(sys.receiver, s));
    assert after.receiver.streams.Keys == sys.receiver.streams.Keys - {s};
    assert FramesNamed(after);
    ReceiverResetNotices(sys, s);
    var entries := after.receiver.retired.entries;
    forall i | 0 <= i < |entries| ensures entries[i].streamId in after.cancelled {
      assert entries[i] in sys.receiver.retired.entries || entries[i].streamId == s;
    }
  }

  lemma ReceiverResetNotices(sys: System, s: int)
    requires NoticesNamed(sys) && s in sys.receiver.streams && s in sys.windows
    ensures NoticesNamed(ReceiverReset(sys, s))
  {
  }

  /** What the budget keeps for the streams it already tracked. */
  lemma OthersStayAllowed(b: R.Budget, s: int, bytes: nat, t: int)
    requires R.WellFormed(b) && !R.Tracked(b.entries, s) && bytes <= b.maximumBytes
    requires t != s && t !in LostByRetiring(b, s, bytes)
    ensures R.Allowed(b.entries, t) <= R.Allowed(R.Allow(b, s, bytes).entries, t)
  {
    if R.Allow(b, s, bytes) != b && R.Tracked(b.entries, t) {
      var k :| 0 <= k < |b.entries| && b.entries[k].streamId == t;
      var kept := R.Evicted(b);
      assert kept != b.entries ==> k > 0 && kept[k - 1] == b.entries[k];
      assert R.Tracked(kept, t);
      R.AllowRecords(b, s, bytes);
    } else if !R.Tracked(b.entries, t) {
      R.AllowedNowhere(b.entries, t);
    }
  }

  lemma UntrackedUntilReset(sys: System, s: int)
    requires SetsNamed(sys) && s in sys.receiver.streams
    ensures !R.Tracked(sys.receiver.retired.entries, s)
  {
  }

  lemma ReceiverResetIsCovered(sys: System, s: int)
    requires Inv(sys) && s in sys.receiver.streams
    ensures LateCovered(ReceiverReset(sys, s))
  {
    var after := ReceiverReset(sys, s);
    UntrackedUntilReset(sys, s);
    forall t | t in sys.covered && t !in after.lost
      ensures Bytes(after.data, t) + Potential(after, t) <= R.Allowed(after.receiver.retired.entries, t)
    {
      CreditedOfAppend(sys.notices, Cancel(s), t);
      AnnouncedAfter(sys, after, Cancel(s), t);
      OthersStayAllowed(sys.receiver.retired, s, G.LateAllowance(sys.receiver, s), t);
    }
  }

  /** Everything still coming on a stream the receiver holds fits the smaller of its window and the connection. */
  lemma StillComing(sys: System, s: int)
    requires Inv(sys) && s in sys.receiver.streams
    ensures Bytes(sys.data, s) + Potential(sys, s)
            <= F.Min(sys.windows[s], sys.sender.initial) - sys.receiver.streams[s].outstanding
  {
    var held := Held(sys.receiver);
    HeldStreamIsNotOpening(sys, s);
    StreamFits(held, sys.data, sys.windows, sys.cancelled, sys.receiver.initial, s);
    if s in sys.sender.streams {
      ReplayKeepsStream(held, sys.data, s);
      ReplayOfStream(held, sys.data, s);
    } else if Announced(sys, s) {
      UnmentionedBytes(sys.data, s);
    }
  }

  /** A safe retirement records room for all of it. */
  lemma SafeRetirementCovers(sys: System, s: int)
    requires Inv(sys) && s in sys.receiver.streams && SafeToRetire(sys.receiver, s)
    ensures Bytes(sys.data, s) + Potential(sys, s) <= G.LateAllowance(sys.receiver, s)
  {
    StillComing(sys, s);
    var held := Held(sys.receiver);
    if sys.receiver.streams[s].available > sys.receiver.connection {
      SumTakesAnyKey(held, s);
      SumIsMonotone(held - {s}, map[]);
    }
  }

  lemma ResetStreamIsCovered(sys: System, s: int)
    requires Inv(sys) && s in sys.receiver.streams && s !in ReceiverReset(sys, s).lost
    requires Bytes(sys.data, s) + Potential(sys, s) <= G.LateAllowance(sys.receiver, s)
    ensures var after := ReceiverReset(sys, s);
            Bytes(after.data, s) + Potential(after, s) <= R.Allowed(after.receiver.retired.entries, s)
  {
    var after := ReceiverReset(sys, s);
    UntrackedUntilReset(sys, s);
    CreditedOfAppend(sys.notices, Cancel(s), s);
    AnnouncedAfter(sys, after, Cancel(s), s);
    R.AllowRecords(sys.receiver.retired, s, G.LateAllowance(sys.receiver, s));
  }

  lemma ReceiverResetKeepsInv(sys: System, s: int)
    requires Inv(sys) && s in sys.receiver.streams
    ensures Inv(ReceiverReset(sys, s))
  {
    assert WindowsValid(ReceiverReset(sys, s)) by { G.ApplyKeepsValid(sys.receiver, G.Retire(s)); }
    ReceiverResetIsLinked(sys, s);
    ReceiverResetIsPaced(sys, s);
    ReceiverResetIsNamed(sys, s);
    ReceiverResetIsCovered(sys, s);
  }

  lemma CoveringKeepsNames(sys: System, s: int)
    requires Named(sys) && s in sys.cancelled
    ensures Named(sys.(covered := sys.covered + {s}))
  {
  }

  lemma CoveringKeepsLinks(sys: System, s: int)
    requires WindowsValid(sys) && Linked(sys) && Paced(sys)
    ensures var after := sys.(covered := sys.covered + {s}); WindowsValid(after) && Linked(after) && Paced(after)
  {
    assert Future(sys.(covered := sys.covered + {s})) == Future(sys);
  }

  lemma CoveringOneMore(sys: System, s: int)
    requires LateCovered(sys)
    requires s !in sys.lost ==> Bytes(sys.data, s) + Potential(sys, s) <= R.Allowed(sys.receiver.retired.entries, s)
    ensures LateCovered(sys.(covered := sys.covered + {s}))
  {
    var after := sys.(covered := sys.covered + {s});
    forall t | t in after.covered ensures Potential(after, t) == Potential(sys, t) {
      assert Announced(after, t) == Announced(sys, t);
    }
  }

  lemma CoverOne(sys: System, s: int)
    requires Inv(sys) && s in sys.cancelled
    requires s !in sys.lost ==> Bytes(sys.data, s) + Potential(sys, s) <= R.Allowed(sys.receiver.retired.entries, s)
    ensures Inv(sys.(covered := sys.covered + {s}))
  {
    CoveringKeepsNames(sys, s);
    CoveringKeepsLinks(sys, s);
    CoveringOneMore(sys, s);
  }

  lemma ReceiverResetsStep(sys: System, s: int)
    requires sys.link.Up? && s in sys.receiver.streams
    ensures var reset := ReceiverReset(sys, s);
            Step(sys, ReceiverResets(s))
            == if SafeToRetire(sys.receiver, s) then reset.(covered := reset.covered + {s}) else reset
  {
  }

  lemma ResetAndCoverKeepsInv(sys: System, s: int)
    requires Inv(sys) && s in sys.receiver.streams
    requires Bytes(sys.data, s) + Potential(sys, s) <= G.LateAllowance(sys.receiver, s)
    ensures Inv(ReceiverReset(sys, s).(covered := ReceiverReset(sys, s).covered + {s}))
  {
    var reset := ReceiverReset(sys, s);
    ReceiverResetKeepsInv(sys, s);
    if s !in reset.lost {
      ResetStreamIsCovered(sys, s);
    }
    CoverOne(reset, s);
  }

  lemma ReceiverResetsKeepsInv(sys: System, s: int)
    requires Inv(sys) && sys.link.Up? && s in sys.receiver.streams
    ensures Inv(Step(sys, ReceiverResets(s)))
  {
    ReceiverResetsStep(sys, s);
    if SafeToRetire(sys.receiver, s) {
      SafeRetirementCovers(sys, s);
      ResetAndCoverKeepsInv(sys, s);
    } else {
      ReceiverResetKeepsInv(sys, s);
    }
  }

  // -------------------------------------------------------------- arrivals

  /** DATA for a stream the receiver holds is within both its credits. */
  lemma DataIsAccepted(sys: System)
    requires WindowsValid(sys) && Paced(sys)
    requires sys.data != [] && sys.data[0].Data? && sys.data[0].streamId in sys.receiver.streams
    ensures G.Apply(sys.receiver, G.Consume(sys.data[0].streamId, sys.data[0].bytes)).status == G.Accepted
  {
    var s, bytes := sys.data[0].streamId, sys.data[0].bytes;
    var held := Held(sys.receiver);
    var next := After(held, sys.data[0]);
    assert Fits(next, sys.data[1..], sys.windows, sys.cancelled, sys.receiver.initial);
    SumOfUpdate(held, s, held[s] + bytes);
  }

  function ArrivalOp(f: Frame): G.Op {
    match f
    case Open(s, window) => G.Open(s, window)
    case Data(s, bytes) => G.Consume(s, bytes)
    case End(s) => G.CloseStream(0)
    case Reset(s) => G.CloseStream(s)
  }

  lemma ArrivalApplies(g: G.Inbound, f: Frame)
    requires G.Valid(g)
    requires f.Open? ==> f.streamId > 0 && f.window > 0 && f.streamId !in g.streams
    requires f.Data? ==> G.Apply(g, ArrivalOp(f)).status == G.Accepted
    ensures Held(G.Apply(g, ArrivalOp(f)).state) == After(Held(g), f)
    ensures G.Apply(g, ArrivalOp(f)).state.retired == g.retired
    ensures G.Apply(g, ArrivalOp(f)).state.initial == g.initial
    ensures forall s | s in G.Apply(g, ArrivalOp(f)).state.streams && !(f.Open? && f.streamId == s) ::
              s in g.streams && G.Apply(g, ArrivalOp(f)).state.streams[s].initial == g.streams[s].initial
    ensures f.Open? ==> G.Apply(g, ArrivalOp(f)).state.streams[f.streamId].initial == f.window
  {
    var after := G.Apply(g, ArrivalOp(f)).state;
    match f {
      case Open(s, window) =>
      case Data(s, bytes) =>
      case End(s) =>
        assert after == g;
      case Reset(s) =>
        if s !in g.streams {
          assert Held(g) - {s} == Held(g);
        }
    }
    assert Held(after) == After(Held(g), f);
  }

  lemma ArrivalIs(sys: System)
    requires G.Valid(sys.receiver) && sys.data != []
    requires sys.data[0].Data? ==>
               && sys.data[0].streamId in sys.receiver.streams
               && G.Apply(sys.receiver, ArrivalOp(sys.data[0])).status == G.Accepted
    ensures FrameArrives(sys.(data := sys.data[1..]), sys.data[0])
            == sys.(data := sys.data[1..],
                    receiver := G.Apply(sys.receiver, ArrivalOp(sys.data[0])).state,
                    drained := if sys.data[0].End? then sys.drained + {sys.data[0].streamId} else sys.drained)
  {
  }

  lemma ArrivalHeld(sys: System)
    requires Inv(sys) && sys.data != []
    requires sys.data[0].Data? ==> sys.data[0].streamId in sys.receiver.streams
    ensures var after := FrameArrives(sys.(data := sys.data[1..]), sys.data[0]);
            && after == sys.(data := sys.data[1..], receiver := after.receiver, drained := after.drained)
            && after.drained == (if sys.data[0].End? then sys.drained + {sys.data[0].streamId} else sys.drained)
            && Held(after.receiver) == After(Held(sys.receiver), sys.data[0])
            && after.receiver.retired == sys.receiver.retired
            && WindowsValid(after)
  {
    var f := sys.data[0];
    if f.Data? {
      DataIsAccepted(sys);
    }
    ArrivalIs(sys);
    G.ApplyKeepsValid(sys.receiver, ArrivalOp(f));
    ArrivalApplies(sys.receiver, f);
  }

  /** What an arrival leaves of the system, apart from the receiver's own window. */
  ghost predicate Arrived(sys: System, after: System) {
    && sys.data != []
    && after == sys.(data := sys.data[1..], receiver := after.receiver, drained := after.drained)
    && after.drained == (if sys.data[0].End? then sys.drained + {sys.data[0].streamId} else sys.drained)
    && after.receiver.retired == sys.receiver.retired
    && Held(after.receiver) == After(Held(sys.receiver), sys.data[0])
  }

  lemma HeldStreams(g: G.Inbound)
    ensures forall s :: s in g.streams <==> s in Held(g)
    ensures forall s | s in g.streams :: g.streams[s].outstanding == Held(g)[s]
  {
  }

  lemma ArrivalFrames(sys: System, after: System)
    requires FramesNamed(sys) && Arrived(sys, after)
    ensures FramesNamed(after)
  {
    HeldStreams(sys.receiver);
    HeldStreams(after.receiver);
  }

  lemma ArrivalNotices(sys: System, after: System)
    requires NoticesNamed(sys) && Arrived(sys, after)
    ensures NoticesNamed(after)
  {
    HeldStreams(sys.receiver);
    HeldStreams(after.receiver);
    assert Mentions(sys.data, sys.data[0].streamId);
    assert forall s | !Mentions(sys.data, s) :: !Mentions(after.data, s);
  }

  lemma ArrivalSets(sys: System, after: System)
    requires FramesNamed(sys) && SetsNamed(sys) && EndsLast(sys) && Arrived(sys, after)
    ensures SetsNamed(after) && EndsLast(after)
  {
    HeldStreams(sys.receiver);
    HeldStreams(after.receiver);
  }

  lemma ArrivalIsLinked(sys: System, after: System)
    requires Linked(sys) && Paced(sys) && Arrived(sys, after) && after.receiver.initial == sys.receiver.initial
    ensures Linked(after) && Paced(after)
  {
    assert Future(after) == Future(sys);
  }

  lemma ArrivalIsCovered(sys: System, after: System)
    requires LateCovered(sys) && Arrived(sys, after)
    ensures LateCovered(after)
  {
    forall t | t in after.covered && t !in after.lost
      ensures Bytes(after.data, t) + Potential(after, t) <= R.Allowed(after.receiver.retired.entries, t)
    {
      assert Announced(after, t) == Announced(sys, t);
    }
  }

  lemma ArrivalKeepsInv(sys: System)
    requires Inv(sys) && sys.data != []
    requires sys.data[0].Data? ==> sys.data[0].streamId in sys.receiver.streams
    ensures var after := FrameArrives(sys.(data := sys.data[1..]), sys.data[0]);
            Inv(after) && after.link == sys.link
  {
    var after := FrameArrives(sys.(data := sys.data[1..]), sys.data[0]);
    ArrivalHeld(sys);
    ArrivalIsLinked(sys, after);
    ArrivalFrames(sys, after);
    ArrivalNotices(sys, after);
    ArrivalSets(sys, after);
    ArrivalIsCovered(sys, after);
  }

  /** A late frame that finds its stream reset meets the budget; a covered stream has room for it. */
  lemma LateFrameIsAccepted(sys: System)
    requires Inv(sys)
    requires sys.data != [] && sys.data[0].Data? && sys.data[0].streamId !in sys.receiver.streams
    ensures sys.data[0].streamId in sys.cancelled
    ensures var s, bytes, budget := sys.data[0].streamId, sys.data[0].bytes, sys.receiver.retired;
            s in sys.covered && s !in sys.lost && budget.remainingFrames > 0 && bytes <= budget.remainingBytes ==>
              R.Refused(budget, s, bytes) == R.Accepted
  {
    var s := sys.data[0].streamId;
    PotentialIsNatural(sys, s);
  }

  lemma LateBudget(b: R.Budget, s: int, bytes: nat, cancelled: set<int>)
    requires R.WellFormed(b) && R.Refused(b, s, bytes) == R.Accepted
    requires s in cancelled
    requires forall i | 0 <= i < |b.entries| :: b.entries[i].streamId in cancelled
    ensures forall i | 0 <= i < |R.Spent(b, s, bytes).entries| :: R.Spent(b, s, bytes).entries[i].streamId in cancelled
  {
    R.DroppedEntries(b.entries, s);
    var others := R.Dropped(b.entries, s);
    forall i | 0 <= i < |others| ensures others[i].streamId in cancelled {
      assert others[i] in b.entries;
    }
  }

  lemma LateIsCovered(sys: System, after: System)
    requires Inv(sys) && sys.data != [] && sys.data[0].Data?
    requires R.Refused(sys.receiver.retired, sys.data[0].streamId, sys.data[0].bytes) == R.Accepted
    requires after == sys.(data := sys.data[1..], receiver := after.receiver, lost := after.lost)
    requires after.receiver
             == sys.receiver.(retired := R.Spent(sys.receiver.retired, sys.data[0].streamId, sys.data[0].bytes))
    requires after.lost == if after.receiver.retired.remainingFrames == 0 || after.receiver.retired.remainingBytes == 0
                           then sys.lost + sys.cancelled else sys.lost
    ensures LateCovered(after)
  {
    var s, bytes := sys.data[0].streamId, sys.data[0].bytes;
    forall t | t in after.covered && t !in after.lost
      ensures Bytes(after.data, t) + Potential(after, t) <= R.Allowed(after.receiver.retired.entries, t)
    {
      R.SpentAllowance(sys.receiver.retired, s, bytes, t);
      assert Announced(after, t) == Announced(sys, t);
    }
  }

  lemma LateIsNamed(sys: System, after: System)
    requires Named(sys) && R.WellFormed(sys.receiver.retired) && sys.data != [] && sys.data[0].Data?
    requires sys.data[0].streamId in sys.cancelled
    requires R.Refused(sys.receiver.retired, sys.data[0].streamId, sys.data[0].bytes) == R.Accepted
    requires after == sys.(data := sys.data[1..], receiver := after.receiver, lost := after.lost)
    requires after.receiver
             == sys.receiver.(retired := R.Spent(sys.receiver.retired, sys.data[0].streamId, sys.data[0].bytes))
    ensures Named(after)
  {
    LateBudget(sys.receiver.retired, sys.data[0].streamId, sys.data[0].bytes, sys.cancelled);
    assert forall t | !Mentions(sys.data, t) :: !Mentions(after.data, t);
    assert FramesNamed(after) && NoticesNamed(after);
  }

  lemma LateArrivalIsLinked(sys: System, after: System)
    requires WindowsValid(sys) && Linked(sys) && Paced(sys) && sys.data != [] && sys.data[0].Data?
    requires sys.data[0].streamId !in sys.receiver.streams
    requires R.Refused(sys.receiver.retired, sys.data[0].streamId, sys.data[0].bytes) == R.Accepted
    requires after == sys.(data := sys.data[1..], receiver := after.receiver, lost := after.lost)
    requires after.receiver
             == sys.receiver.(retired := R.Spent(sys.receiver.retired, sys.data[0].streamId, sys.data[0].bytes))
    ensures WindowsValid(after) && Linked(after) && Paced(after)
  {
    G.ApplyKeepsValid(sys.receiver, G.ConsumeRetired(sys.data[0].streamId, sys.data[0].bytes));
    assert Held(after.receiver) == Held(sys.receiver) == After(Held(sys.receiver), sys.data[0]);
    assert Future(after) == Future(sys);
  }

  lemma LateArrivalKeepsInv(sys: System)
    requires Inv(sys)
    requires sys.data != [] && sys.data[0].Data? && sys.data[0].streamId !in sys.receiver.streams
    requires R.Refused(sys.receiver.retired, sys.data[0].streamId, sys.data[0].bytes) == R.Accepted
    ensures var after := FrameArrives(sys.(data := sys.data[1..]), sys.data[0]);
            Inv(after) && after.link == sys.link
  {
    var after := FrameArrives(sys.(data := sys.data[1..]), sys.data[0]);
    LateFrameIsAccepted(sys);
    LateArrivalIsLinked(sys, after);
    LateIsNamed(sys, after);
    LateIsCovered(sys, after);
  }

  // ------------------------------------------------------ notices arriving

  function Popped(sys: System): System
    requires sys.notices != []
  {
    sys.(notices := sys.notices[1..])
  }

  lemma PoppedAnnounced(sys: System, after: System, t: int)
    requires sys.notices != [] && after.notices == sys.notices[1..]
    ensures Announced(after, t) ==> Announced(sys, t)
    ensures Announced(sys, t) && !(sys.notices[0].Announce? && sys.notices[0].streamId == t) ==> Announced(after, t)
  {
    if Announced(after, t) {
      var i :| 0 <= i < |after.notices| && after.notices[i].Announce? && after.notices[i].streamId == t;
      assert sys.notices[i + 1] == after.notices[i];
    }
    if Announced(sys, t) && !(sys.notices[0].Announce? && sys.notices[0].streamId == t) {
      var i :| 0 <= i < |sys.notices| && sys.notices[i].Announce? && sys.notices[i].streamId == t;
      assert after.notices[i - 1] == sys.notices[i];
    }
  }

  lemma PoppedNotices(sys: System)
    requires NoticesNamed(sys) && sys.notices != []
    ensures NoticesNamed(Popped(sys))
  {
  }

  lemma PoppedFrames(sys: System)
    requires FramesNamed(sys) && SetsNamed(sys) && EndsLast(sys) && sys.notices != []
    ensures FramesNamed(Popped(sys)) && SetsNamed(Popped(sys)) && EndsLast(Popped(sys))
  {
  }

  ghost predicate Useless(sys: System) {
    && sys.notices != [] && !sys.notices[0].Announce?
    && (sys.notices[0].Credit? ==> sys.notices[0].streamId !in sys.sender.streams)
  }

  lemma PoppedIsLinked(sys: System)
    requires WindowsValid(sys) && Linked(sys) && Paced(sys) && Useless(sys)
    ensures WindowsValid(Popped(sys)) && Linked(Popped(sys)) && Paced(Popped(sys))
  {
    assert Future(Popped(sys)) == Future(sys);
  }

  lemma PoppedIsCovered(sys: System)
    requires LateCovered(sys) && Useless(sys)
    ensures LateCovered(Popped(sys))
  {
    var after := Popped(sys);
    forall t | t in after.covered && t !in after.lost ensures Potential(after, t) == Potential(sys, t) {
      PoppedAnnounced(sys, after, t);
    }
  }

  /** A notice the sender has no use for is dropped. */
  lemma DroppedNoticeKeepsInv(sys: System)
    requires Inv(sys) && Useless(sys)
    ensures Inv(Popped(sys))
  {
    PoppedNotices(sys);
    PoppedFrames(sys);
    PoppedIsLinked(sys);
    PoppedIsCovered(sys);
  }

  function AnnouncementHeard(sys: System): System
    requires sys.notices != [] && sys.notices[0].Announce?
  {
    Popped(sys).(sender := sys.sender.(
      streams := sys.sender.streams[sys.notices[0].streamId := F.Credit(sys.notices[0].window, 0)]))
  }

  lemma AnnouncedStream(sys: System)
    requires Inv(sys) && sys.notices != [] && sys.notices[0].Announce?
    ensures Credited(sys.notices, sys.notices[0].streamId) == 0
    ensures sys.notices[0].streamId in Future(sys) || sys.notices[0].streamId in sys.cancelled
    ensures sys.notices[0].streamId in Future(sys) ==> Future(sys)[sys.notices[0].streamId] == 0
    ensures !Announced(Popped(sys), sys.notices[0].streamId)
  {
    var s := sys.notices[0].streamId;
    forall i | 0 <= i < |sys.notices| && sys.notices[i].Credit? ensures sys.notices[i].streamId != s {
    }
    UnmentionedCredit(sys.notices, s);
    if s in sys.receiver.streams {
      ReplayKeepsStream(Held(sys.receiver), sys.data, s);
    }
  }

  lemma AnnouncementNotices(sys: System)
    requires NoticesNamed(sys) && sys.notices != [] && sys.notices[0].Announce?
    ensures NoticesNamed(AnnouncementHeard(sys))
  {
  }

  lemma AnnouncementFrames(sys: System)
    requires Named(sys) && sys.notices != [] && sys.notices[0].Announce?
    ensures var after := AnnouncementHeard(sys); FramesNamed(after) && SetsNamed(after) && EndsLast(after)
  {
    assert Mentions(sys.data, sys.notices[0].streamId) == false;
  }

  lemma AnnouncementIsCovered(sys: System)
    requires Inv(sys) && sys.notices != [] && sys.notices[0].Announce?
    ensures LateCovered(AnnouncementHeard(sys))
  {
    var after := AnnouncementHeard(sys);
    var s := sys.notices[0].streamId;
    AnnouncedStream(sys);
    forall t | t in after.covered && t !in after.lost ensures Potential(after, t) == Potential(sys, t) {
      PoppedAnnounced(sys, after, t);
      if t == s {
        assert Announced(sys, s);
      }
    }
  }

  lemma AnnouncementIsLinked(sys: System)
    requires Inv(sys) && sys.notices != [] && sys.notices[0].Announce?
    ensures var after := AnnouncementHeard(sys); Linked(after) && Paced(after)
  {
    AnnouncedStream(sys);
    assert Future(AnnouncementHeard(sys)) == Future(sys);
  }

  lemma AnnouncementIsValid(sys: System)
    requires WindowsValid(sys) && sys.notices != [] && sys.notices[0].Announce?
    requires sys.notices[0].streamId in sys.windows && sys.notices[0].streamId !in sys.sender.streams
    requires sys.notices[0].window == sys.windows[sys.notices[0].streamId]
    ensures WindowsValid(AnnouncementHeard(sys))
  {
    var s, window := sys.notices[0].streamId, sys.notices[0].window;
    F.OpeningConserves(sys.sender, sys.windows, s, window);
    assert sys.windows[s := window] == sys.windows;
  }

  lemma AnnouncementKeepsInv(sys: System)
    requires Inv(sys) && sys.notices != [] && sys.notices[0].Announce?
    ensures Inv(AnnouncementHeard(sys))
  {
    AnnouncementIsValid(sys);
    AnnouncementIsLinked(sys);
    AnnouncementNotices(sys);
    AnnouncementFrames(sys);
    AnnouncementIsCovered(sys);
  }

  function CreditHeard(sys: System): System
    requires sys.notices != [] && sys.notices[0].Credit? && sys.notices[0].streamId in sys.sender.streams
    requires sys.notices[0].bytes <= sys.sender.streams[sys.notices[0].streamId].outstanding
  {
    Popped(sys).(sender := F.Refill(sys.sender, sys.notices[0].streamId, sys.notices[0].bytes))
  }

  /** Credit on its way back never exceeds what the sender counts as outstanding. */
  lemma CreditIsAccepted(sys: System)
    requires Inv(sys) && sys.notices != [] && sys.notices[0].Credit? && sys.notices[0].streamId in sys.sender.streams
    ensures sys.notices[0].bytes <= sys.sender.streams[sys.notices[0].streamId].outstanding
    ensures F.Prepare(sys.sender, F.Update(sys.notices[0].streamId, sys.notices[0].bytes)).Serve?
    ensures F.Apply(sys.sender, F.Update(sys.notices[0].streamId, sys.notices[0].bytes)).status == F.Done
  {
    var s, bytes := sys.notices[0].streamId, sys.notices[0].bytes;
    F.PrepareKeepsCredit(sys.sender, sys.windows, F.Update(s, bytes));
  }

  lemma CreditIsLinked(sys: System)
    requires Inv(sys) && sys.notices != [] && sys.notices[0].Credit? && sys.notices[0].streamId in sys.sender.streams
    requires sys.notices[0].bytes <= sys.sender.streams[sys.notices[0].streamId].outstanding
    ensures Linked(CreditHeard(sys)) && LateCovered(CreditHeard(sys))
  {
    var after := CreditHeard(sys);
    assert Future(after) == Future(sys);
    assert Linked(after);
    forall t | t in after.covered && t !in after.lost ensures Potential(after, t) == Potential(sys, t) {
      PoppedAnnounced(sys, after, t);
    }
  }

  lemma CreditIsNamed(sys: System)
    requires Named(sys) && sys.notices != [] && sys.notices[0].Credit?
    requires sys.notices[0].streamId in sys.sender.streams
    requires sys.notices[0].bytes <= sys.sender.streams[sys.notices[0].streamId].outstanding
    ensures Named(CreditHeard(sys))
  {
    PoppedNotices(sys);
    PoppedFrames(sys);
  }

  lemma CreditIsValid(sys: System)
    requires WindowsValid(sys) && Paced(sys) && sys.notices != [] && sys.notices[0].Credit?
    requires sys.notices[0].streamId in sys.sender.streams
    requires sys.notices[0].bytes <= sys.sender.streams[sys.notices[0].streamId].outstanding
    ensures WindowsValid(CreditHeard(sys)) && Paced(CreditHeard(sys))
  {
    F.RefillingConserves(sys.sender, sys.windows, sys.notices[0].streamId, sys.notices[0].bytes);
  }

  lemma CreditKeepsInv(sys: System)
    requires Inv(sys) && sys.notices != [] && sys.notices[0].Credit? && sys.notices[0].streamId in sys.sender.streams
    requires sys.notices[0].bytes <= sys.sender.streams[sys.notices[0].streamId].outstanding
    ensures Inv(CreditHeard(sys))
  {
    CreditIsValid(sys);
    CreditIsLinked(sys);
    CreditIsNamed(sys);
  }

  /** A stream the receiver has reset holds nothing there, now or later. */
  lemma CancelledHoldsNothing(sys: System, s: int)
    requires Inv(sys) && s in sys.cancelled
    ensures s !in Future(sys)
  {
    if Opens(sys.data, s) {
      assert false;
    }
    ReplayOfStream(Held(sys.receiver), sys.data, s);
  }

  // ------------------------------------------------------------- one step

  lemma SenderOpensStep(sys: System, s: int, window: nat)
    requires Inv(sys) && sys.link.Up? && Enabled(sys, SenderOpens(s, window))
    ensures Inv(Step(sys, SenderOpens(s, window))) && Step(sys, SenderOpens(s, window)).link.Up?
  {
    NewStreamIsUnknown(sys, s);
    EmitServes(sys, F.OpenStream(s, window), [Open(s, window)]);
    SenderOpenedKeepsInv(sys, s, window);
    ServedKeepsInv(SenderOpened(sys, s, window));
    assert Step(sys, SenderOpens(s, window)) == Served(SenderOpened(sys, s, window));
  }

  lemma SenderTakesServes(sys: System, s: int, maximum: nat)
    requires sys.link.Up? && !sys.sender.closed && Enabled(sys, SenderTakes(s, maximum))
    ensures Step(sys, SenderTakes(s, maximum)) == Served(SenderAsked(sys, s, maximum))
  {
    EmitServes(sys, F.Take(s, maximum), []);
    assert sys.data + [] == sys.data;
  }

  lemma SenderTakesStep(sys: System, s: int, maximum: nat)
    requires Inv(sys) && sys.link.Up? && Enabled(sys, SenderTakes(s, maximum))
    ensures Inv(Step(sys, SenderTakes(s, maximum))) && Step(sys, SenderTakes(s, maximum)).link.Up?
  {
    SenderTakesServes(sys, s, maximum);
    SenderAskedKeepsInv(sys, s, maximum);
    ServedKeepsInv(SenderAsked(sys, s, maximum));
  }

  lemma SenderLeavesStep(sys: System, s: int, control: seq<Frame>)
    requires Inv(sys) && s in sys.sender.streams
    requires control == [Reset(s)] || (control == [] && (s in Future(sys) ==> Future(sys)[s] == 0))
    ensures Inv(Emit(sys, F.CloseStream(s), control)) && Emit(sys, F.CloseStream(s), control).link == sys.link
  {
    EmitServes(sys, F.CloseStream(s), control);
    if control == [] {
      SenderClosedKeepsInv(sys, s);
    } else {
      SenderResetKeepsInv(sys, s);
    }
    ServedKeepsInv(SenderLeft(sys, s, control));
  }

  lemma AnnounceStep(sys: System)
    requires Inv(sys) && sys.notices != [] && sys.notices[0].Announce?
    ensures var after := NoticeArrives(Popped(sys), sys.notices[0]); Inv(after) && after.link == sys.link
  {
    EmitServes(Popped(sys), F.OpenStream(sys.notices[0].streamId, sys.notices[0].window), []);
    assert sys.data + [] == sys.data;
    AnnouncementKeepsInv(sys);
    ServedKeepsInv(AnnouncementHeard(sys));
  }

  lemma CreditStep(sys: System)
    requires Inv(sys) && sys.notices != [] && sys.notices[0].Credit? && sys.notices[0].streamId in sys.sender.streams
    ensures var after := NoticeArrives(Popped(sys), sys.notices[0]); Inv(after) && after.link == sys.link
  {
    CreditIsAccepted(sys);
    EmitServes(Popped(sys), F.Update(sys.notices[0].streamId, sys.notices[0].bytes), []);
    assert sys.data + [] == sys.data;
    CreditKeepsInv(sys);
    ServedKeepsInv(CreditHeard(sys));
  }

  lemma NoticeStep(sys: System)
    requires Inv(sys) && sys.notices != []
    ensures var after := NoticeArrives(Popped(sys), sys.notices[0]); Inv(after) && after.link == sys.link
  {
    var s := sys.notices[0].streamId;
    if sys.notices[0].Announce? {
      AnnounceStep(sys);
    } else if sys.notices[0].Credit? && s in sys.sender.streams {
      CreditStep(sys);
    } else {
      DroppedNoticeKeepsInv(sys);
      if sys.notices[0].Cancel? && s in sys.sender.streams {
        CancelledHoldsNothing(Popped(sys), s);
        SenderLeavesStep(Popped(sys), s, []);
      }
    }
  }

  /** Why late DATA may be refused: not promised, no longer recorded, or the connection's budget is spent. */
  ghost predicate Excused(sys: System, s: int, bytes: nat) {
    && s in sys.cancelled
    && (s in sys.covered && s !in sys.lost ==>
          sys.receiver.retired.remainingFrames == 0 || bytes > sys.receiver.retired.remainingBytes)
  }

  lemma FrameStep(sys: System)
    requires Inv(sys) && sys.link.Up? && sys.data != []
    ensures var after := FrameArrives(sys.(data := sys.data[1..]), sys.data[0]);
            if after.link.Up? then Inv(after)
            else after.link.fault.LateRefused? && Excused(after, after.link.fault.streamId, after.link.fault.bytes)
  {
    var f := sys.data[0];
    if f.Data? && f.streamId !in sys.receiver.streams {
      LateFrameIsAccepted(sys);
      if R.Refused(sys.receiver.retired, f.streamId, f.bytes) == R.Accepted {
        LateArrivalKeepsInv(sys);
      }
    } else {
      ArrivalKeepsInv(sys);
    }
  }

  /** The connection is up and the invariant holds, or it went down over late DATA that nothing promised to take. */
  ghost predicate Safe(sys: System) {
    if sys.link.Up? then Inv(sys)
    else sys.link.fault.LateRefused? && Excused(sys, sys.link.fault.streamId, sys.link.fault.bytes)
  }

  lemma ReceiverOpensStep(sys: System, s: int, window: nat)
    requires sys.link.Up? && Enabled(sys, ReceiverOpens(s, window))
    ensures Step(sys, ReceiverOpens(s, window)) == ReceiverOpened(sys, s, window)
  {
  }

  lemma ReceiverOpensIsSafe(sys: System, s: int, window: nat)
    requires Safe(sys)
    ensures Safe(Step(sys, ReceiverOpens(s, window)))
  {
    if sys.link.Up? && Enabled(sys, ReceiverOpens(s, window)) {
      ReceiverOpenedKeepsInv(sys, s, window);
      ReceiverOpensStep(sys, s, window);
    }
  }

  lemma ReceiverReleasesIsSafe(sys: System, s: int, bytes: nat)
    requires Safe(sys)
    ensures Safe(Step(sys, ReceiverReleases(s, bytes)))
  {
    if sys.link.Up? && Enabled(sys, ReceiverReleases(s, bytes)) {
      ReceiverReleasedKeepsInv(sys, s, bytes);
    }
  }

  lemma ReceiverResetsIsSafe(sys: System, s: int)
    requires Safe(sys)
    ensures Safe(Step(sys, ReceiverResets(s)))
  {
    if sys.link.Up? && Enabled(sys, ReceiverResets(s)) {
      ReceiverResetsKeepsInv(sys, s);
    }
  }

  lemma ReceiverClosesIsSafe(sys: System, s: int)
    requires Safe(sys)
    ensures Safe(Step(sys, ReceiverCloses(s)))
  {
    if sys.link.Up? && Enabled(sys, ReceiverCloses(s)) {
      ReceiverClosesKeepsInv(sys, s);
    }
  }

  lemma SenderOpensIsSafe(sys: System, s: int, window: nat)
    requires Safe(sys)
    ensures Safe(Step(sys, SenderOpens(s, window)))
  {
    if sys.link.Up? && Enabled(sys, SenderOpens(s, window)) {
      SenderOpensStep(sys, s, window);
    }
  }

  lemma SenderTakesIsSafe(sys: System, s: int, maximum: nat)
    requires Safe(sys)
    ensures Safe(Step(sys, SenderTakes(s, maximum)))
  {
    if sys.link.Up? && Enabled(sys, SenderTakes(s, maximum)) {
      SenderTakesStep(sys, s, maximum);
    }
  }

  lemma SenderEndsIsSafe(sys: System, s: int)
    requires Safe(sys)
    ensures Safe(Step(sys, SenderEnds(s)))
  {
    if sys.link.Up? && Enabled(sys, SenderEnds(s)) {
      SenderEndedKeepsInv(sys, s);
    }
  }

  lemma SenderResetsIsSafe(sys: System, s: int)
    requires Safe(sys)
    ensures Safe(Step(sys, SenderResets(s)))
  {
    if sys.link.Up? && Enabled(sys, SenderResets(s)) {
      SenderLeavesStep(sys, s, [Reset(s)]);
    }
  }

  /** A stream with nothing outstanding has nothing in flight and nothing held. */
  lemma NothingOutstanding(sys: System, s: int)
    requires Linked(sys) && s in sys.sender.streams && sys.sender.streams[s].outstanding == 0
    ensures s in Future(sys) ==> Future(sys)[s] == 0
  {
  }

  lemma SenderClosesIsSafe(sys: System, s: int)
    requires Safe(sys)
    ensures Safe(Step(sys, SenderCloses(s)))
  {
    if sys.link.Up? && Enabled(sys, SenderCloses(s)) {
      NothingOutstanding(sys, s);
      SenderLeavesStep(sys, s, []);
    }
  }

  lemma DeliverFrameStep(sys: System)
    requires sys.link.Up? && sys.data != []
    ensures Step(sys, DeliverFrame) == FrameArrives(sys.(data := sys.data[1..]), sys.data[0])
  {
  }

  lemma DeliverFrameIsSafe(sys: System)
    requires Safe(sys)
    ensures Safe(Step(sys, DeliverFrame))
  {
    if sys.link.Up? && sys.data != [] {
      FrameStep(sys);
      DeliverFrameStep(sys);
    }
  }

  lemma DeliverNoticeStep(sys: System)
    requires sys.link.Up? && sys.notices != []
    ensures Step(sys, DeliverNotice) == NoticeArrives(Popped(sys), sys.notices[0])
  {
  }

  lemma SafeWhileUp(sys: System)
    requires Inv(sys) && sys.link.Up?
    ensures Safe(sys)
  {
  }

  lemma DeliverNoticeIsSafe(sys: System)
    requires Safe(sys)
    ensures Safe(Step(sys, DeliverNotice))
  {
    if sys.link.Up? && sys.notices != [] {
      NoticeStep(sys);
      DeliverNoticeStep(sys);
      SafeWhileUp(Step(sys, DeliverNotice));
    }
  }

  lemma StepIsSafe(sys: System, a: Action)
    requires Safe(sys)
    ensures Safe(Step(sys, a))
  {
    match a {
      case SenderOpens(s, window) => SenderOpensIsSafe(sys, s, window);
      case ReceiverOpens(s, window) => ReceiverOpensIsSafe(sys, s, window);
      case SenderTakes(s, maximum) => SenderTakesIsSafe(sys, s, maximum);
      case SenderEnds(s) => SenderEndsIsSafe(sys, s);
      case SenderResets(s) => SenderResetsIsSafe(sys, s);
      case SenderCloses(s) => SenderClosesIsSafe(sys, s);
      case ReceiverReleases(s, bytes) => ReceiverReleasesIsSafe(sys, s, bytes);
      case ReceiverResets(s) => ReceiverResetsIsSafe(sys, s);
      case ReceiverCloses(s) => ReceiverClosesIsSafe(sys, s);
      case DeliverFrame => DeliverFrameIsSafe(sys);
      case DeliverNotice => DeliverNoticeIsSafe(sys);
    }
  }

  // ------------------------------------------------------------ whole runs

  lemma BeginIsSafe(initial: nat, maximumFrames: nat)
    ensures Safe(Begin(initial, maximumFrames))
  {
    var sys := Begin(initial, maximumFrames);
    G.FreshIsValid(initial, maximumFrames);
    assert F.Outstanding(map[]) == map[] && G.Outstanding(map[]) == map[];
    assert Held(sys.receiver) == map[] && Future(sys) == map[];
  }

  /** Two-ended safety: in every run, credit and updates are never refused; only unpromised late DATA can be. */
  lemma {:induction false} EveryRunIsSafe(sys: System, actions: seq<Action>)
    requires Safe(sys)
    ensures Safe(Run(sys, actions))
    decreases |actions|
  {
    if actions != [] {
      StepIsSafe(sys, actions[0]);
      EveryRunIsSafe(Step(sys, actions[0]), actions[1..]);
    }
  }

  /** Every DATA frame that reaches a stream still open at the receiver is within stream and connection credit. */
  lemma HonestDataIsAccepted(initial: nat, maximumFrames: nat, actions: seq<Action>)
    ensures var sys := Run(Begin(initial, maximumFrames), actions);
            sys.link.Up? && sys.data != [] && sys.data[0].Data? && sys.data[0].streamId in sys.receiver.streams ==>
              G.Apply(sys.receiver, G.Consume(sys.data[0].streamId, sys.data[0].bytes)).status == G.Accepted
  {
    BeginIsSafe(initial, maximumFrames);
    EveryRunIsSafe(Begin(initial, maximumFrames), actions);
    var sys := Run(Begin(initial, maximumFrames), actions);
    if sys.link.Up? && sys.data != [] && sys.data[0].Data? && sys.data[0].streamId in sys.receiver.streams {
      DataIsAccepted(sys);
    }
  }

  /** Every WINDOW_UPDATE that reaches a stream still open at the sender is accepted there. */
  lemma HonestCreditIsAccepted(initial: nat, maximumFrames: nat, actions: seq<Action>)
    ensures var sys := Run(Begin(initial, maximumFrames), actions);
            && sys.link.Up? && sys.notices != [] && sys.notices[0].Credit?
            && sys.notices[0].streamId in sys.sender.streams ==>
              F.Apply(sys.sender, F.Update(sys.notices[0].streamId, sys.notices[0].bytes)).status == F.Done
  {
    BeginIsSafe(initial, maximumFrames);
    EveryRunIsSafe(Begin(initial, maximumFrames), actions);
    var sys := Run(Begin(initial, maximumFrames), actions);
    if sys.link.Up? && sys.notices != [] && sys.notices[0].Credit? && sys.notices[0].streamId in sys.sender.streams {
      CreditIsAccepted(sys);
    }
  }

  /** DATA after a reset: only a stream the receiver reset sees it, and a safe reset takes all of it within budget. */
  lemma LateDataIsTolerated(initial: nat, maximumFrames: nat, actions: seq<Action>)
    ensures var sys := Run(Begin(initial, maximumFrames), actions);
            sys.link.Up? && sys.data != [] && sys.data[0].Data? && sys.data[0].streamId !in sys.receiver.streams ==>
              var s, bytes, budget := sys.data[0].streamId, sys.data[0].bytes, sys.receiver.retired;
              && s in sys.cancelled
              && (s in sys.covered && s !in sys.lost && budget.remainingFrames > 0 && bytes <= budget.remainingBytes ==>
                    G.Apply(sys.receiver, G.ConsumeRetired(s, bytes)).status == G.Accepted)
  {
    BeginIsSafe(initial, maximumFrames);
    EveryRunIsSafe(Begin(initial, maximumFrames), actions);
    var sys := Run(Begin(initial, maximumFrames), actions);
    if sys.link.Up? && sys.data != [] && sys.data[0].Data? && sys.data[0].streamId !in sys.receiver.streams {
      LateFrameIsAccepted(sys);
      AcceptedLate(sys.receiver, sys.data[0].streamId, sys.data[0].bytes);
    }
  }

  lemma AcceptedLate(g: G.Inbound, s: int, bytes: nat)
    ensures R.Refused(g.retired, s, bytes) == R.Accepted ==>
              G.Apply(g, G.ConsumeRetired(s, bytes)).status == G.Accepted
  {
  }

  /** With nothing in flight the two ends agree, stream by stream, on what is outstanding. */
  lemma QuietEndsAgree(initial: nat, maximumFrames: nat, actions: seq<Action>, s: int)
    ensures var sys := Run(Begin(initial, maximumFrames), actions);
            && sys.link.Up? && sys.data == [] && sys.notices == [] && s in sys.sender.streams
            && s in sys.receiver.streams ==>
              && sys.sender.streams[s].outstanding == sys.receiver.streams[s].outstanding
              && sys.sender.streams[s].available == sys.receiver.streams[s].available
  {
    BeginIsSafe(initial, maximumFrames);
    EveryRunIsSafe(Begin(initial, maximumFrames), actions);
    var sys := Run(Begin(initial, maximumFrames), actions);
    if sys.link.Up? && sys.data == [] && sys.notices == [] && s in sys.sender.streams && s in sys.receiver.streams {
      QuietStream(sys, s);
    }
  }

  lemma QuietStream(sys: System, s: int)
    requires WindowsValid(sys) && Linked(sys) && sys.data == [] && sys.notices == []
    requires s in sys.sender.streams && s in sys.receiver.streams
    ensures sys.sender.streams[s].outstanding == sys.receiver.streams[s].outstanding
    ensures sys.sender.streams[s].available == sys.receiver.streams[s].available
  {
    assert s in Held(sys.receiver) && Future(sys) == Held(sys.receiver);
  }
}
