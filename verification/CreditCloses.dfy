/**
 Closing a stream after its END. Letting go is sound exactly when no byte of the
 stream is in flight or held by the receiver any more; otherwise the credit it
 frees lets the sender overrun the receiver.
 */
module CreditCloses {
  import opened Sums
  import opened Channel
  import opened CreditProtocol
  import opened CreditSafety
  import opened CreditReturn
  import opened CreditLimits
  import F = FlowWindow
  import G = GatewayInbound
  import R = RetiredBudget

  // ------------------------------------------------ closing after the END

  /** What the endpoints do when both directions have ended: let go of the stream, whatever is outstanding. */
  function CloseAfterEnd(sys: System, s: int): System {
    Emit(sys, F.CloseStream(s), [])
  }

  /** Neither DATA within a stream the receiver has open nor returned credit has been refused. */
  ghost predicate CreditNeverRefused(end: System) {
    end.link.Down? ==> !end.link.fault.CreditRefused? && !end.link.fault.UpdateRefused?
  }

  lemma CleanCloseIsSound(sys: System, s: int, actions: seq<Action>)
    requires Inv(sys) && sys.link.Up? && s in sys.sender.streams
    requires s in Future(sys) ==> Future(sys)[s] == 0
    ensures CreditNeverRefused(Run(CloseAfterEnd(sys, s), actions))
  {
    SenderLeavesStep(sys, s, []);
    EveryRunIsSafe(CloseAfterEnd(sys, s), actions);
  }

  ghost function Surplus(sys: System, u: int): seq<Action> {
    var bytes := sys.receiver.connection + 1;
    [SenderOpens(u, bytes), SenderTakes(u, bytes), DeliverFrame, DeliverFrame]
  }

  lemma AfterFlood(filled: System, u: int, bytes: nat)
    requires filled.link.Up? && filled.data == [Open(u, bytes), Data(u, bytes)]
    requires u > 0 && u !in filled.receiver.streams && bytes > filled.receiver.connection
    ensures Step(Step(filled, DeliverFrame), DeliverFrame).link == Down(CreditRefused(u, bytes, G.ExceedsConnection))
  {
    var after := Step(filled, DeliverFrame);
    assert filled.data[1..] == [Data(u, bytes)];
    assert after == Receive(filled.(data := [Data(u, bytes)]), G.Open(u, bytes));
    assert after.receiver.streams[u].available == bytes && after.receiver.connection == filled.receiver.connection;
  }

  /** With more credit at the sender than at the receiver, a new stream can overrun the receiver. */
  lemma FloodOverruns(closed: System, u: int, bytes: nat, actions: seq<Action>)
    requires closed.link.Up? && closed.data == [] && closed.sender.waiters == [] && !closed.sender.closed
    requires u > 0 && u !in closed.windows && u !in closed.sender.streams && u !in closed.receiver.streams
    requires u !in closed.finished && closed.receiver.connection < bytes <= closed.sender.connection
    requires actions == [SenderOpens(u, bytes), SenderTakes(u, bytes), DeliverFrame, DeliverFrame]
    ensures !CreditNeverRefused(Run(closed, actions))
  {
    OpeningQuietly(closed, u, bytes);
    var grown := Step(closed, SenderOpens(u, bytes));
    SpendingQuietly(grown, u, bytes);
    AfterFlood(Step(grown, SenderTakes(u, bytes)), u, bytes);
    RunOfFour(closed, actions);
  }

  /** Letting go with bytes outstanding frees credit the receiver has not freed; a new stream overruns it. */
  lemma EarlyCloseOverruns(sys: System, s: int, u: int)
    requires Quiet(sys) && s in sys.sender.streams && sys.sender.streams[s].outstanding > 0
    requires u > 0 && u !in sys.windows
    ensures !CreditNeverRefused(Run(CloseAfterEnd(sys, s), Surplus(sys, u)))
  {
    QuietCredit(sys);
    LeavingQuietly(sys, s, []);
    NewStreamIsUnknown(sys, u);
    FloodOverruns(CloseAfterEnd(sys, s), u, sys.receiver.connection + 1, Surplus(sys, u));
  }

  // ------------------------------------------------ frames that meet a stream

  ghost predicate MeetsOne(load: Load, f: Frame) {
    && (f.Data? ==> f.bytes > 0 && f.streamId in load)
    && (f.Open? ==> f.streamId > 0 && f.window > 0 && f.streamId !in load)
  }

  /** Every DATA frame meets an open stream and every opening a new one, whatever the limits say. */
  ghost predicate Meets(load: Load, frames: seq<Frame>)
    decreases |frames|
  {
    frames == [] || (MeetsOne(load, frames[0]) && Meets(After(load, frames[0]), frames[1..]))
  }

  lemma {:induction false} MeetsAppend(load: Load, frames: seq<Frame>, last: Frame)
    requires Meets(load, frames) && MeetsOne(Replay(load, frames), last)
    ensures Meets(load, frames + [last])
    decreases |frames|
  {
    if frames == [] {
      assert [last][1..] == [] && frames + [last] == [last];
    } else {
      assert (frames + [last])[1..] == frames[1..] + [last];
      MeetsAppend(After(load, frames[0]), frames[1..], last);
    }
  }

  lemma {:induction false} MeetsAppendData(load: Load, frames: seq<Frame>, more: seq<Frame>)
    requires Meets(load, frames)
    requires forall i | 0 <= i < |more| ::
               more[i].Data? && more[i].bytes > 0 && more[i].streamId in Replay(load, frames)
    ensures Meets(load, frames + more)
    decreases |more|
  {
    if more == [] {
      assert frames + more == frames;
    } else {
      var next := frames + [more[0]];
      MeetsAppend(load, frames, more[0]);
      ReplayOfConcat(load, frames, [more[0]]);
      ReplayOfOne(Replay(load, frames), more[0]);
      assert next + more[1..] == frames + more;
      MeetsAppendData(load, next, more[1..]);
    }
  }

  ghost predicate OpensAnew(load: Load, frames: seq<Frame>) {
    && (forall i | 0 <= i < |frames| && frames[i].Open? ::
          frames[i].streamId > 0 && frames[i].window > 0 && frames[i].streamId !in load)
    && (forall i, j | 0 <= i < j < |frames| && frames[i].Open? && frames[j].Open? ::
          frames[i].streamId != frames[j].streamId)
  }

  lemma OpensAnewTail(load: Load, frames: seq<Frame>)
    requires frames != [] && OpensAnew(load, frames)
    ensures OpensAnew(After(load, frames[0]), frames[1..])
  {
  }

  lemma {:induction false} FitsMeets(
    load: Load, frames: seq<Frame>, windows: map<int, nat>, cancelled: set<int>, limit: nat)
    requires Fits(load, frames, windows, cancelled, limit) && OpensAnew(load, frames)
    requires forall i | 0 <= i < |frames| && frames[i].Data? :: frames[i].streamId !in cancelled
    ensures Meets(load, frames)
    decreases |frames|
  {
    if frames != [] {
      OpensAnewTail(load, frames);
      FitsMeets(After(load, frames[0]), frames[1..], windows, cancelled, limit);
    }
  }

  /** No reset stream has DATA in flight or a request parked. */
  ghost predicate NoneLate(sys: System) {
    forall t | t in sys.cancelled :: Bytes(sys.data, t) == 0 && t !in Wanted(sys.sender.waiters)
  }

  /** Requests wait only for streams that the receiver will have open. */
  ghost predicate WaitersWelcome(sys: System) {
    forall v | v in sys.sender.waiters && v.streamId in sys.sender.streams :: v.streamId in Future(sys)
  }

  lemma {:induction false} DataHasBytes(frames: seq<Frame>, i: nat)
    requires i < |frames| && frames[i].Data?
    ensures Bytes(frames, frames[i].streamId) >= frames[i].bytes
  {
    if i > 0 {
      DataHasBytes(frames[1..], i - 1);
    }
  }

  lemma {:induction false} FitsArePositive(
    load: Load, frames: seq<Frame>, windows: map<int, nat>, cancelled: set<int>, limit: nat, i: nat)
    requires Fits(load, frames, windows, cancelled, limit) && i < |frames| && frames[i].Data?
    ensures frames[i].bytes > 0
    decreases |frames|
  {
    if i > 0 {
      FitsArePositive(After(load, frames[0]), frames[1..], windows, cancelled, limit, i - 1);
    }
  }

  lemma InFlightMeets(sys: System)
    requires WindowsValid(sys) && Paced(sys) && FramesNamed(sys) && NoneLate(sys)
    ensures Meets(Held(sys.receiver), sys.data)
  {
    var held, limit := Held(sys.receiver), sys.receiver.initial;
    forall i | 0 <= i < |sys.data| && sys.data[i].Data? ensures sys.data[i].streamId !in sys.cancelled {
      DataHasBytes(sys.data, i);
      FitsArePositive(held, sys.data, sys.windows, sys.cancelled, limit, i);
    }
    FitsMeets(held, sys.data, sys.windows, sys.cancelled, limit);
  }

  // ------------------------------------------------------- more than there is room for

  lemma OneArrival(sys: System)
    requires sys.link.Up? && G.Valid(sys.receiver) && sys.data != [] && MeetsOne(Held(sys.receiver), sys.data[0])
    ensures var after := Step(sys, DeliverFrame);
            || !CreditNeverRefused(after)
            || (&& after.link.Up? && after.data == sys.data[1..] && G.Valid(after.receiver)
                && Held(after.receiver) == After(Held(sys.receiver), sys.data[0])
                && after.receiver.initial == sys.receiver.initial)
  {
    var f := sys.data[0];
    DeliverFrameStep(sys);
    HeldStreams(sys.receiver);
    if f.Data? && G.Apply(sys.receiver, G.Consume(f.streamId, f.bytes)).status != G.Accepted {
      assert !CreditNeverRefused(Step(sys, DeliverFrame));
    } else {
      ArrivalIs(sys);
      G.ApplyKeepsValid(sys.receiver, ArrivalOp(f));
      ArrivalApplies(sys.receiver, f);
    }
  }

  /** If all that is in flight exceeds what the receiver may hold, its delivery ends in refused credit. */
  lemma {:induction false} TooMuchIsRefused(sys: System) returns (actions: seq<Action>)
    requires sys.link.Up? && G.Valid(sys.receiver) && Meets(Held(sys.receiver), sys.data)
    requires Sum(Replay(Held(sys.receiver), sys.data)) > sys.receiver.initial
    ensures !CreditNeverRefused(Run(sys, actions))
    decreases |sys.data|
  {
    assert sys.data != [];
    var after := Step(sys, DeliverFrame);
    OneArrival(sys);
    var rest: seq<Action> := [];
    if CreditNeverRefused(after) {
      rest := TooMuchIsRefused(after);
    }
    actions := [DeliverFrame] + rest;
    assert actions[1..] == rest;
  }

  // ----------------------------------------------------- the sender lets go of everything

  /** The sender's own accounts are in order, but it has forgotten bytes of `s` that the receiver will hold. */
  ghost predicate Loose(sys: System, s: int, u: int) {
    && sys.link.Up? && F.Valid(sys.sender, sys.windows) && !sys.sender.closed && G.Valid(sys.receiver)
    && sys.sender.initial == sys.receiver.initial
    && Meets(Held(sys.receiver), sys.data)
    && WaitersWelcome(sys)
    && s in Future(sys) && Future(sys)[s] > 0 && s !in sys.sender.streams
    && u > 0 && u !in sys.windows && u !in Future(sys) && u !in sys.finished
  }

  /** Serving the queue sends DATA only on streams that the receiver will have open. */
  lemma ServedMeets(sys: System)
    requires Meets(Held(sys.receiver), sys.data) && WaitersWelcome(sys)
    ensures Meets(Held(sys.receiver), Served(sys).data) && WaitersWelcome(Served(sys))
  {
    var frames := DataFrames(F.Drain(sys.sender, 0).log);
    DrainEmits(sys.sender, 0);
    F.DrainFrame(sys.sender, 0);
    ServedFuture(sys);
    forall i | 0 <= i < |frames|
      ensures frames[i].Data? && frames[i].bytes > 0 && frames[i].streamId in Future(sys)
    {
      assert frames[i].streamId in Wanted(sys.sender.waiters);
    }
    MeetsAppendData(Held(sys.receiver), sys.data, frames);
  }

  lemma LeavingMeets(sys: System, t: int, control: seq<Frame>)
    requires t in sys.sender.streams && (control == [] || control == [Reset(t)])
    requires Meets(Held(sys.receiver), sys.data)
    ensures var left := SenderLeft(sys, t, control);
            && Meets(Held(left.receiver), left.data)
            && Future(left) == (if control == [] then Future(sys) else Future(sys) - {t})
            && (WaitersWelcome(sys) ==> WaitersWelcome(left))
  {
    F.KeptMembers(sys.sender.waiters, t);
    assert sys.data + [] == sys.data;
    MeetsAppend(Held(sys.receiver), sys.data, Reset(t));
    FutureAfter(sys, Reset(t));
  }

  lemma LeavingServes(sys: System, t: int, control: seq<Frame>)
    requires t in sys.sender.streams && (control == [] || control == [Reset(t)])
    requires F.Valid(sys.sender, sys.windows)
    ensures var after := Emit(sys, F.CloseStream(t), control);
            && after == Served(SenderLeft(sys, t, control)) && F.Valid(after.sender, sys.windows)
            && after == sys.(sender := after.sender, data := after.data)
            && after.sender.initial == sys.sender.initial && after.sender.closed == sys.sender.closed
            && after.sender.streams.Keys == sys.sender.streams.Keys - {t}
  {
    EmitServes(sys, F.CloseStream(t), control);
    F.ApplyKeepsValid(sys.sender, sys.windows, F.CloseStream(t));
    F.DrainFrame(SenderLeft(sys, t, control).sender, 0);
  }

  lemma SenderResetsStep(sys: System, t: int)
    requires sys.link.Up? && t in sys.sender.streams
    ensures Step(sys, SenderResets(t)) == Emit(sys, F.CloseStream(t), [Reset(t)])
  {
  }

  /** What letting go of `t` leaves of the receiver's prospects. */
  lemma ResetMeets(sys: System, t: int)
    requires t in sys.sender.streams && Meets(Held(sys.receiver), sys.data) && WaitersWelcome(sys)
    ensures var after := Served(SenderLeft(sys, t, [Reset(t)]));
            && Meets(Held(sys.receiver), after.data) && WaitersWelcome(after)
            && Future(after).Keys == Future(sys).Keys - {t}
            && (forall v | v in Future(sys) && v != t :: Future(after)[v] >= Future(sys)[v])
  {
    var left := SenderLeft(sys, t, [Reset(t)]);
    LeavingMeets(sys, t, [Reset(t)]);
    ServedMeets(left);
    ServedFuture(left);
  }

  lemma ResetKeepsLoose(sys: System, s: int, u: int, t: int)
    requires Loose(sys, s, u) && t in sys.sender.streams
    ensures Loose(Step(sys, SenderResets(t)), s, u)
    ensures Step(sys, SenderResets(t)).sender.streams.Keys == sys.sender.streams.Keys - {t}
  {
    SenderResetsStep(sys, t);
    LeavingServes(sys, t, [Reset(t)]);
    ResetMeets(sys, t);
  }

  lemma {:induction false} LooseOverruns(sys: System, s: int, u: int) returns (actions: seq<Action>)
    requires Loose(sys, s, u)
    ensures !CreditNeverRefused(Run(sys, actions))
    decreases |sys.sender.streams.Keys|
  {
    var rest: seq<Action>;
    if sys.sender.streams.Keys != {} {
      var t := SomeKey(sys.sender.streams.Keys);
      ResetKeepsLoose(sys, s, u, t);
      rest := LooseOverruns(Step(sys, SenderResets(t)), s, u);
      actions := [SenderResets(t)] + rest;
      assert actions[1..] == rest;
    } else {
      actions := EmptyOverruns(sys, s, u);
    }
  }

  lemma SomeKey<T>(keys: set<T>) returns (t: T)
    requires keys != {}
    ensures t in keys && |keys - {t}| < |keys|
  {
    t :| t in keys;
  }

  /** With no stream left the sender has its whole credit and no request. */
  lemma EmptyIsWhole(w: F.Window, windows: map<int, nat>)
    requires F.Valid(w, windows) && !w.closed && w.streams.Keys == {}
    ensures w.connection == w.initial && w.waiters == []
  {
    assert F.Outstanding(w.streams) == map[];
    if w.waiters != [] {
      FirstStarves(w);
    }
  }

  lemma FirstStarves(w: F.Window)
    requires F.Settled(w) && w.waiters != []
    ensures w.streams.Keys != {}
  {
    assert F.Starved(w, w.waiters[0]);
  }

  /** A new stream takes all the credit there is, although the receiver still holds bytes of `s`. */
  lemma FillingUp(sys: System, s: int, u: int)
    requires Loose(sys, s, u) && sys.sender.streams.Keys == {} && sys.sender.initial > 0
    ensures var filled := Step(Step(sys, SenderOpens(u, sys.sender.initial)), SenderTakes(u, sys.sender.initial));
            && filled.link.Up? && filled.receiver == sys.receiver
            && filled.data == sys.data + [Open(u, sys.sender.initial)] + [Data(u, sys.sender.initial)]
  {
    EmptyIsWhole(sys.sender, sys.windows);
    OpeningQuietly(sys, u, sys.sender.initial);
    var grown := Step(sys, SenderOpens(u, sys.sender.initial));
    SpendingQuietly(grown, u, sys.sender.initial);
  }

  lemma FilledMeets(load: Load, data: seq<Frame>, s: int, u: int, bytes: nat)
    requires Meets(load, data) && u > 0 && bytes > 0 && u !in Replay(load, data)
    requires s in Replay(load, data) && Replay(load, data)[s] > 0
    ensures var filled := data + [Open(u, bytes)] + [Data(u, bytes)];
            Meets(load, filled) && Sum(Replay(load, filled)) > bytes
  {
    var future := Replay(load, data);
    MeetsAppend(load, data, Open(u, bytes));
    ReplayOfConcat(load, data, [Open(u, bytes)]);
    ReplayOfOne(future, Open(u, bytes));
    MeetsAppend(load, data + [Open(u, bytes)], Data(u, bytes));
    ReplayOfConcat(load, data + [Open(u, bytes)], [Data(u, bytes)]);
    ReplayOfOne(future[u := 0], Data(u, bytes));
    var last: Load := future[u := 0][u := bytes];
    SumTakesAnyKey(last, u);
    SumBoundsEachKey(last - {u}, s);
  }

  lemma EmptyOverruns(sys: System, s: int, u: int) returns (actions: seq<Action>)
    requires Loose(sys, s, u) && sys.sender.streams.Keys == {}
    ensures !CreditNeverRefused(Run(sys, actions))
  {
    var bytes := sys.sender.initial;
    var rest: seq<Action>;
    if bytes == 0 {
      SumBoundsEachKey(Future(sys), s);
      actions := TooMuchIsRefused(sys);
    } else {
      FillingUp(sys, s, u);
      FilledMeets(Held(sys.receiver), sys.data, s, u, bytes);
      rest := TooMuchIsRefused(Step(Step(sys, SenderOpens(u, bytes)), SenderTakes(u, bytes)));
      actions := [SenderOpens(u, bytes), SenderTakes(u, bytes)] + rest;
      assert actions[1..][1..] == rest && actions[1..][0] == SenderTakes(u, bytes);
      assert Run(sys, actions) == Run(Step(sys, SenderOpens(u, bytes)), actions[1..]);
    }
  }

  // ------------------------------------------------------------ the exact condition

  lemma InFlightIsWelcome(sys: System)
    requires Linked(sys) && EndsLast(sys) && NoneLate(sys)
    ensures WaitersWelcome(sys)
  {
    forall v | v in sys.sender.waiters && v.streamId in sys.sender.streams ensures v.streamId in Future(sys) {
      var i :| 0 <= i < |sys.sender.waiters| && sys.sender.waiters[i] == v;
      assert v.streamId in Wanted(sys.sender.waiters);
    }
  }

  lemma EarlyCloseIsLoose(sys: System, s: int, u: int)
    requires Steady(sys) && sys.link.Up? && NoneLate(sys) && s in sys.sender.streams
    requires s in Future(sys) && Future(sys)[s] > 0 && u > 0 && u !in sys.windows
    ensures Loose(CloseAfterEnd(sys, s), s, u)
  {
    var left := SenderLeft(sys, s, []);
    NewStreamIsUnknown(sys, u);
    InFlightMeets(sys);
    LeavingServes(sys, s, []);
    InFlightIsWelcome(sys);
    LeavingMeets(sys, s, []);
    ServedMeets(left);
    ServedFuture(left);
  }

  /**
   Closing after END, exactly, from every reachable state in which no reset stream
   can still be late: neither DATA nor credit is ever refused afterwards if and only
   if no byte of the stream is in flight or held at the receiver. `u` is any id not
   used yet.
   */
  lemma CloseAfterEndSoundExactlyWhenDrained(sys: System, s: int, u: int)
    requires Steady(sys) && sys.link.Up? && NoneLate(sys) && s in sys.sender.streams && s in sys.finished
    requires u > 0 && u !in sys.windows
    ensures (s in Future(sys) ==> Future(sys)[s] == 0)
            <==> forall actions :: CreditNeverRefused(Run(CloseAfterEnd(sys, s), actions))
  {
    if s in Future(sys) ==> Future(sys)[s] == 0 {
      forall actions ensures CreditNeverRefused(Run(CloseAfterEnd(sys, s), actions)) {
        CleanCloseIsSound(sys, s, actions);
      }
    } else {
      EarlyCloseIsLoose(sys, s, u);
      var actions := LooseOverruns(CloseAfterEnd(sys, s), s, u);
      assert !CreditNeverRefused(Run(CloseAfterEnd(sys, s), actions));
    }
  }

  /** In a quiet connection the sender can see the condition: nothing outstanding. */
  lemma CloseAfterEndSoundExactlyWhenClean(sys: System, s: int, u: int)
    requires Quiet(sys) && s in sys.sender.streams && s in sys.finished
    requires u > 0 && u !in sys.windows
    ensures sys.sender.streams[s].outstanding == 0
            <==> forall actions :: CreditNeverRefused(Run(CloseAfterEnd(sys, s), actions))
  {
    QuietIsSteady(sys);
    QuietCredit(sys);
    assert Future(sys) == Held(sys.receiver);
    CloseAfterEndSoundExactlyWhenDrained(sys, s, u);
  }

  // ---------------------------------------------------------- a run that gets there

  lemma ExampleEnds(sys: System)
    requires sys.link.Up? && sys.data == [] && 1 in sys.sender.streams && sys.finished == {} && sys.sender.waiters == []
    ensures Step(Step(sys, SenderEnds(1)), DeliverFrame) == sys.(finished := {1}, drained := sys.drained + {1})
  {
    var ended := Step(sys, SenderEnds(1));
    assert ended.data == [End(1)] && ended.data[1..] == [];
  }

  lemma ExampleIsQuiet(sys: System, ended: System)
    requires Safe(sys) && Safe(ended) && ended == sys.(finished := {1}, drained := sys.drained + {1})
    requires sys.link.Up? && sys.data == [] && sys.notices == [] && sys.sender.waiters == []
    requires sys.sender.streams.Keys == sys.receiver.streams.Keys && 1 in sys.receiver.streams
    ensures Quiet(ended) && ended.sender.streams[1].outstanding == sys.receiver.streams[1].outstanding
  {
    QuietCredit(ended);
  }

  /** Two steps in which the stream ends and its END arrives. */
  lemma ExampleEndsSafely(traffic: System, ended: System)
    requires Safe(traffic) && ended == Step(Step(traffic, SenderEnds(1)), DeliverFrame)
    ensures Safe(ended)
  {
    StepIsSafe(traffic, SenderEnds(1));
    StepIsSafe(Step(traffic, SenderEnds(1)), DeliverFrame);
  }

  lemma ExampleStarts(begin: System, actions: seq<Action>) returns (traffic: System)
    requires begin == Begin(2, 8)
    requires actions
             == [SenderOpens(1, 2), SenderOpens(3, 2), SenderTakes(1, 1), DeliverFrame, DeliverFrame, DeliverFrame]
    ensures traffic == Run(begin, actions) && Safe(traffic)
    ensures traffic.link.Up? && traffic.data == [] && traffic.notices == [] && traffic.finished == {}
    ensures traffic.sender.waiters == [] && traffic.windows.Keys == {1, 3}
    ensures traffic.sender.streams.Keys == traffic.receiver.streams.Keys == {1, 3}
    ensures traffic.receiver.streams[1].outstanding == 1
  {
    traffic := ExampleTraffic(begin);
    ExampleHolds(traffic.receiver);
    RunOfSix(begin, actions);
    RunsFromBeginAreSafe(2, 8, begin, actions);
  }

  lemma ExampleHolds(g: G.Inbound)
    requires g == G.Inbound(2, 1, map[1 := G.Credit(2, 1, 1), 3 := G.Credit(2, 2, 0)], R.FreshBudget(2, 8))
    ensures g.streams.Keys == {1, 3} && g.streams[1].outstanding == 1
  {
  }

  /** One byte of stream 1 is still held by the receiver when the stream has ended. */
  lemma ExampleEnded(traffic: System) returns (sys: System)
    requires Safe(traffic) && traffic.link.Up? && traffic.data == [] && traffic.notices == [] && traffic.finished == {}
    requires traffic.sender.waiters == [] && traffic.windows.Keys == {1, 3}
    requires traffic.sender.streams.Keys == traffic.receiver.streams.Keys == {1, 3}
    requires traffic.receiver.streams[1].outstanding == 1
    ensures sys == Step(Step(traffic, SenderEnds(1)), DeliverFrame)
    ensures Quiet(sys) && 1 in sys.sender.streams && 1 in sys.finished && sys.windows.Keys == {1, 3}
    ensures sys.sender.streams[1].outstanding == 1
  {
    ExampleEnds(traffic);
    sys := traffic.(finished := {1}, drained := traffic.drained + {1});
    ExampleEndsSafely(traffic, sys);
    ExampleIsQuiet(traffic, sys);
  }

  lemma {:induction false} RunSplits(sys: System, first: seq<Action>, second: seq<Action>)
    ensures Run(sys, first + second) == Run(Run(sys, first), second)
    decreases |first|
  {
    if first == [] {
      assert first + second == second;
    } else {
      assert (first + second)[1..] == first[1..] + second;
      RunSplits(Step(sys, first[0]), first[1..], second);
    }
  }

  lemma RunOfTwo(sys: System, a: Action, b: Action)
    ensures Run(sys, [a, b]) == Step(Step(sys, a), b)
  {
    assert [a, b][1..] == [b] && [b][1..] == [];
    assert Run(sys, [a, b]) == Run(Step(sys, a), [b]) == Run(Step(Step(sys, a), b), []);
  }

  lemma ExampleRun(begin: System, six: seq<Action>, two: seq<Action>) returns (sys: System)
    requires begin == Begin(2, 8) && two == [SenderEnds(1), DeliverFrame]
    requires six == [SenderOpens(1, 2), SenderOpens(3, 2), SenderTakes(1, 1), DeliverFrame, DeliverFrame, DeliverFrame]
    ensures sys == Run(begin, six + two)
    ensures Quiet(sys) && 1 in sys.sender.streams && 1 in sys.finished && sys.windows.Keys == {1, 3}
    ensures sys.sender.streams[1].outstanding == 1
  {
    var traffic := ExampleStarts(begin, six);
    sys := ExampleEnded(traffic);
    RunOfTwo(traffic, SenderEnds(1), DeliverFrame);
    RunSplits(begin, six, two);
  }

  /**
   The unsound case is reached by ordinary traffic: a byte of stream 1 is still held
   when the stream has ended, and closing it then lets a new stream `u` overrun the
   receiver.
   */
  lemma EarlyCloseIsReachable(begin: System, six: seq<Action>, two: seq<Action>, u: int) returns (sys: System)
    requires begin == Begin(2, 8) && two == [SenderEnds(1), DeliverFrame] && u > 3
    requires six == [SenderOpens(1, 2), SenderOpens(3, 2), SenderTakes(1, 1), DeliverFrame, DeliverFrame, DeliverFrame]
    ensures sys == Run(begin, six + two) && Quiet(sys)
    ensures 1 in sys.sender.streams && 1 in sys.finished && sys.sender.streams[1].outstanding == 1
    ensures !CreditNeverRefused(Run(CloseAfterEnd(sys, 1), Surplus(sys, u)))
  {
    sys := ExampleRun(begin, six, two);
    EarlyCloseOverruns(sys, 1, u);
  }
}
