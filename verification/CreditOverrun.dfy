/**
 When late DATA is tolerated, exactly, from any reachable state: whatever is in
 flight, parked or announced. After an unsafe reset the sender can always bring
 more onto the stream than the receiver has recorded room for.
 */
module CreditOverrun {
  import opened Sums
  import opened Channel
  import opened CreditProtocol
  import opened CreditSafety
  import opened CreditReturn
  import opened CreditLimits
  import F = FlowWindow
  import G = GatewayInbound
  import R = RetiredBudget

  /** What is in flight on a stream and what the sender may still put there without a new credit. */
  ghost function Incoming(sys: System, s: int): int {
    Bytes(sys.data, s) + Potential(sys, s)
  }

  /** No other reset stream has DATA in flight or a request parked: nothing else can be late. */
  ghost predicate Lone(sys: System, s: int) {
    forall t | t in sys.cancelled && t != s :: Bytes(sys.data, t) == 0 && t !in Wanted(sys.sender.waiters)
  }

  /** The sender has the stream open, or will when it hears of it. */
  ghost predicate Usable(sys: System, s: int) {
    s !in sys.finished && (s in sys.sender.streams || Announced(sys, s))
  }

  /** While both ends have the stream, exactly what its window or the connection still leaves is coming. */
  lemma IncomingIsTheRest(sys: System, s: int)
    requires WindowsValid(sys) && Linked(sys) && FramesNamed(sys) && NoticesNamed(sys)
    requires s in sys.receiver.streams && Usable(sys, s)
    ensures Incoming(sys, s) == F.Min(sys.windows[s], sys.sender.initial) - sys.receiver.streams[s].outstanding
  {
    if s in sys.sender.streams {
      HeldStreamIsNotOpening(sys, s);
      ReplayKeepsStream(Held(sys.receiver), sys.data, s);
      ReplayOfStream(Held(sys.receiver), sys.data, s);
    } else {
      UnmentionedBytes(sys.data, s);
    }
  }

  // ---------------------------------------------------------------- in pieces

  /** DATA frames of a stream. */
  ghost function Parts(frames: seq<Frame>, s: int): nat {
    if frames == [] then 0
    else (if frames[0].Data? && frames[0].streamId == s then 1 else 0) + Parts(frames[1..], s)
  }

  /** Requests of a stream, and the bytes they ask for. */
  ghost function Asking(waiters: seq<F.Waiter>, s: int): nat {
    if waiters == [] then 0 else (if waiters[0].streamId == s then 1 else 0) + Asking(waiters[1..], s)
  }

  ghost function AskedBytes(waiters: seq<F.Waiter>, s: int): nat {
    if waiters == [] then 0
    else (if waiters[0].streamId == s then waiters[0].maximumBytes else 0) + AskedBytes(waiters[1..], s)
  }

  /** The most frames and bytes that arrive on a stream if no more is asked for. */
  ghost function Pieces(sys: System, s: int): nat {
    Parts(sys.data, s) + Asking(sys.sender.waiters, s)
  }

  ghost function Due(sys: System, s: int): nat {
    Bytes(sys.data, s) + AskedBytes(sys.sender.waiters, s)
  }

  lemma {:induction false} PartsOfConcat(a: seq<Frame>, b: seq<Frame>, s: int)
    ensures Parts(a + b, s) == Parts(a, s) + Parts(b, s)
  {
    if a == [] {
      assert a + b == b;
    } else {
      assert (a + b)[1..] == a[1..] + b;
      PartsOfConcat(a[1..], b, s);
    }
  }

  lemma PartsOfOne(f: Frame, s: int)
    ensures Parts([f], s) == if f.Data? && f.streamId == s then 1 else 0
    ensures Bytes([f], s) == if f.Data? && f.streamId == s then f.bytes else 0
  {
    assert [f][1..] == [];
  }

  lemma {:induction false} PartsHaveBytes(frames: seq<Frame>, s: int)
    requires Bytes(frames, s) > 0
    ensures Parts(frames, s) > 0
  {
    if !(frames[0].Data? && frames[0].streamId == s) {
      PartsHaveBytes(frames[1..], s);
    }
  }

  lemma {:induction false} AskedWithout(waiters: seq<F.Waiter>, index: nat, s: int)
    requires index < |waiters|
    ensures var own := waiters[index].streamId == s;
            && Asking(waiters, s) == Asking(F.RemoveAt(waiters, index), s) + (if own then 1 else 0)
            && AskedBytes(waiters, s)
               == AskedBytes(F.RemoveAt(waiters, index), s) + (if own then waiters[index].maximumBytes else 0)
  {
    if index == 0 {
      assert F.RemoveAt(waiters, index) == waiters[1..];
    } else {
      AskedWithout(waiters[1..], index - 1, s);
      var rest := F.RemoveAt(waiters, index);
      assert rest[0] == waiters[0] && rest[1..] == F.RemoveAt(waiters[1..], index - 1);
    }
  }

  lemma {:induction false} AskedKept(waiters: seq<F.Waiter>, s: int, t: int)
    requires s != t
    ensures Asking(F.Kept(waiters, t), s) == Asking(waiters, s)
    ensures AskedBytes(F.Kept(waiters, t), s) == AskedBytes(waiters, s)
  {
    if waiters != [] {
      AskedKept(waiters[1..], s, t);
      if waiters[0].streamId == t {
        assert F.Kept(waiters, t) == F.Kept(waiters[1..], t);
      } else {
        assert F.Kept(waiters, t)[1..] == F.Kept(waiters[1..], t);
      }
    }
  }

  /** What a drain sends on a stream was asked for, one frame a request. */
  ghost predicate SentAsAsked(w: F.Window, served: F.Served, s: int) {
    var frames := DataFrames(served.log);
    && Parts(frames, s) + Asking(served.window.waiters, s) <= Asking(w.waiters, s)
    && Bytes(frames, s) + AskedBytes(served.window.waiters, s) <= AskedBytes(w.waiters, s)
  }

  lemma GrantIsAsked(w: F.Window, index: nat, inner: F.Window, next: F.Served, head: F.Outcome, s: int)
    requires index < |w.waiters| && inner.waiters == F.RemoveAt(w.waiters, index)
    requires head.waiter == w.waiters[index] && (head.Granted? ==> head.bytes <= head.waiter.maximumBytes)
    requires SentAsAsked(inner, next, s)
    ensures SentAsAsked(w, F.Served(next.window, [head] + next.log), s)
  {
    AskedWithout(w.waiters, index, s);
    var log := [head] + next.log;
    assert log[1..] == next.log;
    if head.Granted? {
      var first := Data(head.waiter.streamId, head.bytes);
      PartsOfConcat([first], DataFrames(next.log), s);
      BytesOfConcat([first], DataFrames(next.log), s);
      PartsOfOne(first, s);
    } else {
      assert DataFrames(log) == DataFrames(next.log);
    }
  }

  lemma {:induction false} DrainSendsAsAsked(w: F.Window, index: nat, s: int)
    requires index <= |w.waiters|
    ensures SentAsAsked(w, F.Drain(w, index), s)
    decreases |w.waiters| - index
  {
    if index < |w.waiters| {
      var waiter := w.waiters[index];
      var rest := F.RemoveAt(w.waiters, index);
      if waiter.streamId !in w.streams {
        var inner := w.(waiters := rest);
        DrainSendsAsAsked(inner, index, s);
        GrantIsAsked(w, index, inner, F.Drain(inner, index), F.Rejected(waiter, F.StreamGone), s);
      } else {
        var granted := F.Grantable(w, waiter);
        if granted == 0 {
          DrainSendsAsAsked(w, index + 1, s);
        } else {
          var inner := F.Spend(w, waiter.streamId, granted).(waiters := rest);
          DrainSendsAsAsked(inner, index, s);
          GrantIsAsked(w, index, inner, F.Drain(inner, index), F.Granted(waiter, granted), s);
        }
      }
    }
  }

  // ------------------------------------------------------ the sender's part

  /** As much is coming on `s` as before, in no more pieces, and still nothing else can be late. */
  ghost predicate Unhindered(sys: System, after: System, s: int) {
    && Incoming(after, s) == Incoming(sys, s)
    && Pieces(after, s) <= Pieces(sys, s) && Due(after, s) <= Due(sys, s)
    && Lone(after, s)
  }

  lemma UnhinderedTransitively(a: System, b: System, c: System, s: int)
    requires Unhindered(a, b, s) && Unhindered(b, c, s)
    ensures Unhindered(a, c, s)
  {
  }

  lemma ServedIncoming(sys: System, s: int)
    requires s in sys.windows && s !in sys.finished
    ensures Incoming(Served(sys), s) == Incoming(sys, s)
    ensures Served(sys).sender.streams.Keys == sys.sender.streams.Keys
  {
    var frames := DataFrames(F.Drain(sys.sender, 0).log);
    DrainEmits(sys.sender, 0);
    F.DrainFrame(sys.sender, 0);
    BytesOfConcat(sys.data, frames, s);
    if s !in sys.sender.streams {
      UnmentionedBytes(frames, s);
    }
    assert Announced(Served(sys), s) == Announced(sys, s);
  }

  lemma ServedIsLone(sys: System, s: int)
    requires Lone(sys, s)
    ensures Lone(Served(sys), s)
  {
    var frames := DataFrames(F.Drain(sys.sender, 0).log);
    DrainEmits(sys.sender, 0);
    F.DrainFrame(sys.sender, 0);
    forall t | t in sys.cancelled && t != s
      ensures Bytes(Served(sys).data, t) == 0 && t !in Wanted(Served(sys).sender.waiters)
    {
      BytesOfConcat(sys.data, frames, t);
      UnmentionedBytes(frames, t);
      FewerWanted(Served(sys).sender.waiters, sys.sender.waiters, t);
    }
  }

  lemma FewerWanted(fewer: seq<F.Waiter>, waiters: seq<F.Waiter>, t: int)
    requires forall v | v in fewer :: v in waiters
    ensures t in Wanted(fewer) ==> t in Wanted(waiters)
  {
    if t in Wanted(fewer) {
      var i :| 0 <= i < |fewer| && fewer[i].streamId == t;
      assert fewer[i] in waiters;
    }
  }

  lemma Serving(sys: System, s: int)
    requires Lone(sys, s) && s in sys.windows && s !in sys.finished
    ensures Unhindered(sys, Served(sys), s)
    ensures Served(sys) == sys.(sender := Served(sys).sender, data := Served(sys).data)
    ensures Served(sys).sender.streams.Keys == sys.sender.streams.Keys
  {
    ServedIsLone(sys, s);
    ServedIncoming(sys, s);
    DrainSendsAsAsked(sys.sender, 0, s);
    BytesOfConcat(sys.data, DataFrames(F.Drain(sys.sender, 0).log), s);
    PartsOfConcat(sys.data, DataFrames(F.Drain(sys.sender, 0).log), s);
  }

  lemma Leaving(sys: System, s: int, t: int)
    requires Lone(sys, s) && t in sys.sender.streams && s != t
    ensures Unhindered(sys, SenderLeft(sys, t, [Reset(t)]), s)
  {
    var after := SenderLeft(sys, t, [Reset(t)]);
    BytesAfter(sys.data, Reset(t), s);
    PartsOfConcat(sys.data, [Reset(t)], s);
    PartsOfOne(Reset(t), s);
    AskedKept(sys.sender.waiters, s, t);
    assert Announced(after, s) == Announced(sys, s);
    F.KeptMembers(sys.sender.waiters, t);
    forall u | u in sys.cancelled && u != s ensures Bytes(after.data, u) == 0 && u !in Wanted(after.sender.waiters) {
      BytesAfter(sys.data, Reset(t), u);
      FewerWanted(after.sender.waiters, sys.sender.waiters, u);
    }
  }

  /** The sender resets another stream: its credit is free, and what is coming on `s` is the same. */
  lemma ResettingOthers(sys: System, s: int, t: int)
    requires sys.link.Up? && Lone(sys, s) && s in sys.windows && s !in sys.finished
    requires t in sys.sender.streams && s != t
    ensures var after := Step(sys, SenderResets(t));
            && Unhindered(sys, after, s)
            && after.sender.streams.Keys == sys.sender.streams.Keys - {t}
            && after == sys.(sender := after.sender, data := after.data)
  {
    var left := SenderLeft(sys, t, [Reset(t)]);
    EmitServes(sys, F.CloseStream(t), [Reset(t)]);
    Leaving(sys, s, t);
    Serving(left, s);
    UnhinderedTransitively(sys, left, Served(left), s);
  }

  // ------------------------------------------------------ notices on the way

  /** The reset of `s` is the last notice on its way and no earlier one is a reset of it. */
  ghost predicate CancelLast(notices: seq<Notice>, s: int) {
    && notices != [] && notices[|notices| - 1] == Cancel(s)
    && forall i | 0 <= i < |notices| - 1 :: notices[i] != Cancel(s)
  }

  lemma LastCancelWaits(sys: System, s: int)
    requires CancelLast(sys.notices, s) && (Credited(sys.notices, s) > 0 || Announced(sys, s))
    ensures |sys.notices| > 1 && sys.notices[0] != Cancel(s) && CancelLast(sys.notices[1..], s)
  {
    assert |sys.notices| == 1 ==> sys.notices == [Cancel(s)];
    assert [Cancel(s)][1..] == [] && Credited([Cancel(s)], s) == 0;
  }

  /** A stream the receiver announced becomes known to the sender. */
  lemma HearingAnnounce(sys: System, s: int)
    requires Inv(sys) && Lone(sys, s) && Usable(sys, s)
    requires sys.notices != [] && sys.notices[0].Announce?
    ensures Unhindered(sys, AnnouncementHeard(sys), s) && Usable(AnnouncementHeard(sys), s)
  {
    AnnouncedStream(sys);
    PoppedAnnounced(sys, AnnouncementHeard(sys), s);
    assert Announced(sys, sys.notices[0].streamId);
  }

  lemma HearingCredit(sys: System, s: int)
    requires Lone(sys, s) && Usable(sys, s)
    requires sys.notices != [] && sys.notices[0].Credit? && sys.notices[0].streamId in sys.sender.streams
    requires sys.notices[0].bytes <= sys.sender.streams[sys.notices[0].streamId].outstanding
    ensures Unhindered(sys, CreditHeard(sys), s) && Usable(CreditHeard(sys), s)
  {
    PoppedAnnounced(sys, CreditHeard(sys), s);
  }

  lemma HearingNothing(sys: System, s: int)
    requires Lone(sys, s) && Usable(sys, s) && Useless(sys)
    ensures Unhindered(sys, Popped(sys), s) && Usable(Popped(sys), s)
  {
    PoppedAnnounced(sys, Popped(sys), s);
  }

  lemma ThenServing(sys: System, heard: System, s: int)
    requires Unhindered(sys, heard, s) && Usable(heard, s) && s in heard.windows
    ensures Unhindered(sys, Served(heard), s) && Usable(Served(heard), s)
    ensures Served(heard) == heard.(sender := Served(heard).sender, data := Served(heard).data)
  {
    Serving(heard, s);
    UnhinderedTransitively(sys, heard, Served(heard), s);
    assert Announced(Served(heard), s) == Announced(heard, s);
  }

  /** Any notice but the reset itself leaves what is coming on `s` as it was. */
  lemma Hearing(sys: System, s: int)
    requires Inv(sys) && sys.link.Up? && Lone(sys, s) && Usable(sys, s) && s in sys.windows
    requires sys.sender.streams.Keys <= {s}
    requires sys.notices != [] && sys.notices[0] != Cancel(s)
    ensures var after := Step(sys, DeliverNotice);
            && Unhindered(sys, after, s) && Usable(after, s)
            && after == sys.(sender := after.sender, data := after.data, notices := sys.notices[1..])
  {
    DeliverNoticeStep(sys);
    var t := sys.notices[0].streamId;
    assert sys.data + [] == sys.data;
    if sys.notices[0].Announce? {
      EmitServes(Popped(sys), F.OpenStream(t, sys.notices[0].window), []);
      HearingAnnounce(sys, s);
      ThenServing(sys, AnnouncementHeard(sys), s);
    } else if sys.notices[0].Credit? && t in sys.sender.streams {
      CreditIsAccepted(sys);
      EmitServes(Popped(sys), F.Update(t, sys.notices[0].bytes), []);
      HearingCredit(sys, s);
      ThenServing(sys, CreditHeard(sys), s);
    } else {
      HearingNothing(sys, s);
    }
  }

  // ----------------------------------------------------------- all that comes

  /** More is coming than is recorded for the stream, and the budgets could take it all. */
  ghost predicate Pressed(b: R.Budget, s: int, coming: int, pieces: nat) {
    && R.Allowed(b.entries, s) < coming <= b.remainingBytes
    && (pieces <= b.remainingFrames || R.Allowed(b.entries, s) < b.remainingFrames)
    && b.remainingFrames > 0
  }

  /** More is in flight on the reset stream than is recorded for it, and nothing else in flight is late. */
  ghost predicate Flooded(sys: System, s: int) {
    && Inv(sys) && sys.link.Up? && s in sys.cancelled && s !in sys.lost
    && (forall t | t in sys.cancelled && t != s :: Bytes(sys.data, t) == 0)
    && Pressed(sys.receiver.retired, s, Bytes(sys.data, s), Parts(sys.data, s))
  }

  lemma PunctualBytes(sys: System, t: int)
    requires sys.data != [] && SetsNamed(sys) && t in sys.cancelled
    requires sys.data[0].Data? ==> sys.data[0].streamId in sys.receiver.streams
    ensures Bytes(sys.data[1..], t) == Bytes(sys.data, t) && Parts(sys.data[1..], t) == Parts(sys.data, t)
  {
  }

  lemma PunctualFrame(sys: System, s: int)
    requires Flooded(sys, s) && sys.data != []
    requires sys.data[0].Data? ==> sys.data[0].streamId in sys.receiver.streams
    ensures Flooded(Step(sys, DeliverFrame), s) && |Step(sys, DeliverFrame).data| < |sys.data|
  {
    DeliverFrameStep(sys);
    ArrivalKeepsInv(sys);
    ArrivalHeld(sys);
    forall t | t in sys.cancelled
      ensures Bytes(sys.data[1..], t) == Bytes(sys.data, t) && Parts(sys.data[1..], t) == Parts(sys.data, t)
    {
      PunctualBytes(sys, t);
    }
  }

  /** The only frames that can be late are those of the stream itself. */
  lemma LateFrameIsOwn(sys: System, s: int)
    requires Flooded(sys, s) && sys.data != [] && sys.data[0].Data? && sys.data[0].streamId !in sys.receiver.streams
    ensures sys.data[0].streamId == s && 0 < sys.data[0].bytes <= Bytes(sys.data, s)
  {
    LateFrameIsAccepted(sys);
    assert Expected(Held(sys.receiver), sys.data[0], sys.cancelled);
  }

  /** An accepted late frame eases nothing: what is left coming still exceeds what is left recorded. */
  lemma PressureStays(b: R.Budget, s: int, bytes: nat, rest: nat, pieces: nat)
    requires R.WellFormed(b) && R.Refused(b, s, bytes) == R.Accepted && Pressed(b, s, bytes + rest, pieces + 1)
    requires rest > 0 ==> pieces > 0
    ensures Pressed(R.Spent(b, s, bytes), s, rest, pieces) && R.Spent(b, s, bytes).remainingBytes > 0
  {
    R.SpentAllowance(b, s, bytes, s);
  }

  lemma LateStep(sys: System, s: int, bytes: nat)
    requires sys.link.Up? && sys.data != [] && sys.data[0] == Data(s, bytes) && s !in sys.receiver.streams
    requires R.Refused(sys.receiver.retired, s, bytes) == R.Accepted
    requires R.Spent(sys.receiver.retired, s, bytes).remainingFrames > 0
    requires R.Spent(sys.receiver.retired, s, bytes).remainingBytes > 0
    ensures Step(sys, DeliverFrame)
            == sys.(data := sys.data[1..],
                    receiver := sys.receiver.(retired := R.Spent(sys.receiver.retired, s, bytes)))
  {
  }

  lemma TailBytes(data: seq<Frame>, s: int)
    requires data != [] && data[0].Data? && data[0].streamId == s
    ensures forall t :: Bytes(data[1..], t) == Bytes(data, t) - if t == s then data[0].bytes else 0
    ensures Parts(data[1..], s) == Parts(data, s) - 1
    ensures Bytes(data[1..], s) > 0 ==> Parts(data[1..], s) > 0
  {
    if Bytes(data[1..], s) > 0 {
      PartsHaveBytes(data[1..], s);
    }
  }

  lemma LateFrameIsTaken(sys: System, s: int, bytes: nat)
    requires Flooded(sys, s) && sys.data != [] && sys.data[0] == Data(s, bytes) && s !in sys.receiver.streams
    requires R.Refused(sys.receiver.retired, s, bytes) == R.Accepted
    ensures Flooded(Step(sys, DeliverFrame), s) && |Step(sys, DeliverFrame).data| < |sys.data|
  {
    DeliverFrameStep(sys);
    LateArrivalKeepsInv(sys);
    TailBytes(sys.data, s);
    PressureStays(sys.receiver.retired, s, bytes, Bytes(sys.data[1..], s), Parts(sys.data[1..], s));
    LateStep(sys, s, bytes);
  }

  lemma LateFrameIsRefused(sys: System, s: int, bytes: nat)
    requires sys.link.Up? && sys.data != [] && sys.data[0] == Data(s, bytes) && s !in sys.receiver.streams
    requires s !in sys.lost && bytes <= sys.receiver.retired.remainingBytes && sys.receiver.retired.remainingFrames > 0
    requires R.Refused(sys.receiver.retired, s, bytes) != R.Accepted
    ensures !Tolerated(Step(sys, DeliverFrame), s)
  {
  }

  lemma FloodMovesOn(sys: System, s: int)
    requires Flooded(sys, s) && sys.data != []
    ensures var next := Step(sys, DeliverFrame);
            !Tolerated(next, s) || (Flooded(next, s) && |next.data| < |sys.data|)
  {
    if sys.data[0].Data? && sys.data[0].streamId !in sys.receiver.streams {
      LateFrameIsOwn(sys, s);
      var bytes := sys.data[0].bytes;
      if R.Refused(sys.receiver.retired, s, bytes) == R.Accepted {
        LateFrameIsTaken(sys, s, bytes);
      } else {
        LateFrameIsRefused(sys, s, bytes);
      }
    } else {
      PunctualFrame(sys, s);
    }
  }

  lemma FloodIsInFlight(sys: System, s: int)
    requires Flooded(sys, s)
    ensures sys.data != []
  {
  }

  /** Delivering the flood ends in a refusal that no budget excuses. */
  lemma {:induction false} FloodIsRefused(sys: System, s: int) returns (actions: seq<Action>)
    requires Flooded(sys, s)
    ensures !Tolerated(Run(sys, actions), s)
    decreases |sys.data|
  {
    FloodIsInFlight(sys, s);
    FloodMovesOn(sys, s);
    var rest: seq<Action> := [];
    if Tolerated(Step(sys, DeliverFrame), s) {
      rest := FloodIsRefused(Step(sys, DeliverFrame), s);
    }
    actions := [DeliverFrame] + rest;
    assert actions[1..] == rest;
  }

  // --------------------------------------------------------------- the overrun

  /** More can come than the `allowed` bytes, and the budgets have room for what is under way and for the excess. */
  ghost predicate Overdrawn(sys: System, s: int, allowed: nat) {
    var b := sys.receiver.retired;
    && allowed < Incoming(sys, s) && allowed < b.remainingBytes
    && (Due(sys, s) <= b.remainingBytes || Incoming(sys, s) <= b.remainingBytes)
    && (Pieces(sys, s) < b.remainingFrames || allowed < b.remainingFrames)
  }

  /** The stream is reset, the sender does not know yet, and more can come than is recorded. */
  ghost predicate Brewing(sys: System, s: int) {
    && sys.link.Up? && s in sys.cancelled && s !in sys.lost && s in sys.windows
    && Usable(sys, s) && Lone(sys, s) && CancelLast(sys.notices, s)
    && Overdrawn(sys, s, R.Allowed(sys.receiver.retired.entries, s))
  }

  ghost predicate Doomed(sys: System, s: int) {
    Steady(sys) && Brewing(sys, s)
  }

  lemma StillBrewing(sys: System, after: System, s: int)
    requires Brewing(sys, s) && Unhindered(sys, after, s) && Usable(after, s) && CancelLast(after.notices, s)
    requires after == sys.(sender := after.sender, data := after.data, notices := after.notices)
    ensures Brewing(after, s)
  {
  }

  lemma BrewingByReset(sys: System, s: int, t: int)
    requires Brewing(sys, s) && t in sys.sender.streams && t != s
    ensures var after := Step(sys, SenderResets(t));
            && Brewing(after, s) && after.notices == sys.notices
            && after.sender.streams.Keys == sys.sender.streams.Keys - {t}
  {
    var after := Step(sys, SenderResets(t));
    ResettingOthers(sys, s, t);
    assert Announced(after, s) == Announced(sys, s);
    StillBrewing(sys, after, s);
  }

  lemma DoomedByReset(sys: System, s: int, t: int)
    requires Doomed(sys, s) && t in sys.sender.streams && t != s
    ensures var after := Step(sys, SenderResets(t));
            && Doomed(after, s) && after.notices == sys.notices
            && after.sender.streams.Keys == sys.sender.streams.Keys - {t}
  {
    StepIsSteady(sys, SenderResets(t));
    BrewingByReset(sys, s, t);
  }

  lemma BrewingByNotice(sys: System, s: int)
    requires Inv(sys) && Brewing(sys, s) && sys.sender.streams.Keys <= {s}
    requires Credited(sys.notices, s) > 0 || Announced(sys, s)
    ensures Brewing(Step(sys, DeliverNotice), s) && |Step(sys, DeliverNotice).notices| < |sys.notices|
  {
    LastCancelWaits(sys, s);
    Hearing(sys, s);
    StillBrewing(sys, Step(sys, DeliverNotice), s);
  }

  lemma DoomedByNotice(sys: System, s: int)
    requires Doomed(sys, s) && sys.sender.streams.Keys <= {s}
    requires Credited(sys.notices, s) > 0 || Announced(sys, s)
    ensures Doomed(Step(sys, DeliverNotice), s) && |Step(sys, DeliverNotice).notices| < |sys.notices|
  {
    StepIsSteady(sys, DeliverNotice);
    BrewingByNotice(sys, s);
  }

  /** A sender with one stream left, all its credit known: what it may still send is what both credits allow. */
  lemma LastPotential(sys: System, s: int)
    requires WindowsValid(sys) && sys.sender.streams.Keys == {s} && Credited(sys.notices, s) == 0
    requires s in sys.windows && s !in sys.finished
    ensures Potential(sys, s) == F.Min(sys.sender.streams[s].available, sys.sender.connection)
  {
    var outstanding := F.Outstanding(sys.sender.streams);
    SumTakesAnyKey(outstanding, s);
    assert outstanding - {s} == map[];
  }

  lemma EnoughIsInFlight(sys: System, s: int)
    requires Doomed(sys, s) && Bytes(sys.data, s) > R.Allowed(sys.receiver.retired.entries, s)
    ensures Flooded(sys, s)
  {
    PotentialIsNatural(sys, s);
  }

  lemma OneMoreFrame(sys: System, s: int, bytes: nat)
    requires Doomed(sys, s) && Last(sys, s)
    requires 0 < bytes <= Potential(sys, s)
    ensures var after := Step(sys, SenderTakes(s, bytes));
            && Inv(after) && after == sys.(sender := after.sender, data := sys.data + [Data(s, bytes)])
  {
    LastPotential(sys, s);
    WholeHasNoWaiters(sys.sender);
    SpendingQuietly(sys, s, bytes);
    SenderTakesIsSafe(sys, s, bytes);
  }

  lemma OneMoreFrameFloods(sys: System, after: System, s: int, bytes: nat)
    requires Doomed(sys, s) && Inv(after) && after == sys.(sender := after.sender, data := sys.data + [Data(s, bytes)])
    requires Bytes(sys.data, s) + bytes == R.Allowed(sys.receiver.retired.entries, s) + 1
    ensures Flooded(after, s)
  {
    PartsOfConcat(sys.data, [Data(s, bytes)], s);
    PartsOfOne(Data(s, bytes), s);
    forall t ensures Bytes(after.data, t) == Bytes(sys.data, t) + if t == s then bytes else 0 {
      BytesAfter(sys.data, Data(s, bytes), t);
    }
  }

  lemma DoomedFloods(sys: System, s: int) returns (next: System, actions: seq<Action>)
    requires Doomed(sys, s) && Last(sys, s)
    ensures Flooded(next, s)
    ensures (actions == [] && next == sys) || (|actions| == 1 && next == Step(sys, actions[0]))
  {
    var allowed := R.Allowed(sys.receiver.retired.entries, s);
    next, actions := sys, [];
    if Bytes(sys.data, s) > allowed {
      EnoughIsInFlight(sys, s);
    } else {
      var bytes := allowed + 1 - Bytes(sys.data, s);
      OneMoreFrame(sys, s, bytes);
      next, actions := Step(sys, SenderTakes(s, bytes)), [SenderTakes(s, bytes)];
      OneMoreFrameFloods(sys, next, s, bytes);
    }
  }

  /** The sender has no other stream and nothing more to hear that would let it send. */
  ghost predicate Last(sys: System, s: int) {
    sys.sender.streams.Keys == {s} && Credited(sys.notices, s) == 0
  }

  lemma DoomedMovesOn(sys: System, s: int) returns (a: Action)
    requires Doomed(sys, s) && !Last(sys, s)
    ensures var next := Step(sys, a);
            && Doomed(next, s)
            && (|| |next.notices| < |sys.notices|
                || (next.notices == sys.notices && next.sender.streams.Keys < sys.sender.streams.Keys))
  {
    if sys.sender.streams.Keys <= {s} {
      a := DeliverNotice;
      DoomedByNotice(sys, s);
    } else {
      var t := AnotherKey(sys.sender.streams.Keys, s);
      a := SenderResets(t);
      DoomedByReset(sys, s, t);
    }
  }

  /**
   The overrun: the sender resets every other stream, takes in the credit that is
   on its way, spends as much of it on the stream as it takes, and the frames arrive.
   */
  lemma {:induction false} DoomedIsOverrun(sys: System, s: int) returns (actions: seq<Action>)
    requires Doomed(sys, s)
    ensures !Tolerated(Run(sys, actions), s)
    decreases |sys.notices|, sys.sender.streams.Keys
  {
    if Last(sys, s) {
      var next, first := DoomedFloods(sys, s);
      var rest := FloodIsRefused(next, s);
      actions := first + rest;
      assert first == [] ==> actions == rest;
      assert first != [] ==> actions[0] == first[0] && actions[1..] == rest;
    } else {
      var a := DoomedMovesOn(sys, s);
      var rest := DoomedIsOverrun(Step(sys, a), s);
      actions := [a] + rest;
      assert actions[1..] == rest;
    }
  }

  lemma AnotherKey<T>(keys: set<T>, s: T) returns (t: T)
    requires !(keys <= {s})
    ensures t in keys && t != s && keys - {t} < keys
  {
    t :| t in keys && t != s;
  }

  // ------------------------------------------------------------ the exact condition

  /** The budgets have room for what is in flight or asked for, and for one byte beyond the allowance. */
  ghost predicate Roomy(sys: System, s: int)
    requires s in sys.receiver.streams
  {
    var b, allowed := sys.receiver.retired, G.LateAllowance(sys.receiver, s);
    && allowed < b.remainingBytes && (Due(sys, s) <= b.remainingBytes || Incoming(sys, s) <= b.remainingBytes)
    && (Pieces(sys, s) < b.remainingFrames || allowed < b.remainingFrames)
  }

  /** While both ends have the stream, what is recorded is enough exactly when the receiver sees a safe reset. */
  lemma EnoughExactlyWhenSafe(sys: System, s: int)
    requires Inv(sys) && s in sys.receiver.streams && Usable(sys, s)
    ensures Incoming(sys, s) <= G.LateAllowance(sys.receiver, s) <==> SafeToRetire(sys.receiver, s)
  {
    if SafeToRetire(sys.receiver, s) {
      SafeRetirementCovers(sys, s);
    } else {
      UnsafeAllowance(sys, s);
    }
  }

  /** An unsafe reset records less than is still coming. */
  lemma UnsafeAllowance(sys: System, s: int)
    requires WindowsValid(sys) && Linked(sys) && FramesNamed(sys) && NoticesNamed(sys)
    requires s in sys.receiver.streams && Usable(sys, s) && !SafeToRetire(sys.receiver, s)
    ensures G.LateAllowance(sys.receiver, s) < Incoming(sys, s)
  {
    IncomingIsTheRest(sys, s);
    var held := Held(sys.receiver);
    var t :| t in sys.receiver.streams && t != s && sys.receiver.streams[t].outstanding != 0;
    SumTakesAnyKey(held, s);
    SumBoundsEachKey(held - {s}, t);
  }

  lemma ResetIncoming(sys: System, after: System, s: int)
    requires after == sys.(receiver := after.receiver, notices := sys.notices + [Cancel(s)],
                           cancelled := sys.cancelled + {s}, covered := after.covered, lost := after.lost)
    requires Lone(sys, s)
    ensures Unhindered(sys, after, s) && Usable(after, s) == Usable(sys, s)
  {
    CreditedOfAppend(sys.notices, Cancel(s), s);
    AnnouncedAfter(sys, after, Cancel(s), s);
  }

  lemma ResetIsLast(sys: System, s: int)
    requires NoticesNamed(sys) && SetsNamed(sys) && s in sys.receiver.streams
    ensures CancelLast(sys.notices + [Cancel(s)], s)
  {
  }

  lemma ResetRecords(sys: System, s: int)
    requires sys.link.Up? && G.Valid(sys.receiver) && SetsNamed(sys) && s in sys.receiver.streams && s !in sys.lost
    requires sys.receiver.retired.remainingFrames > 0 && sys.receiver.retired.remainingBytes > 0
    ensures var after := Step(sys, ReceiverResets(s));
            && s in after.cancelled && s !in after.lost
            && R.Allowed(after.receiver.retired.entries, s) == G.LateAllowance(sys.receiver, s)
            && after.receiver.retired.remainingFrames == sys.receiver.retired.remainingFrames
            && after.receiver.retired.remainingBytes == sys.receiver.retired.remainingBytes
            && after == sys.(receiver := after.receiver, notices := sys.notices + [Cancel(s)],
                             cancelled := sys.cancelled + {s}, covered := after.covered, lost := after.lost)
  {
    ReceiverResetsStep(sys, s);
    UntrackedUntilReset(sys, s);
    R.AllowRecords(sys.receiver.retired, s, G.LateAllowance(sys.receiver, s));
  }

  lemma ShortResetDooms(sys: System, s: int)
    requires Steady(sys) && sys.link.Up? && s in sys.receiver.streams && s !in sys.lost && Lone(sys, s) && Roomy(sys, s)
    requires Incoming(sys, s) > G.LateAllowance(sys.receiver, s) && Usable(sys, s)
    ensures Doomed(Step(sys, ReceiverResets(s)), s)
  {
    StepIsSteady(sys, ReceiverResets(s));
    ResetRecords(sys, s);
    ResetIncoming(sys, Step(sys, ReceiverResets(s)), s);
    ResetIsLast(sys, s);
  }

  /** Where the sender can send no more, what is in flight is all that comes. */
  lemma ShortResetFloods(sys: System, s: int)
    requires Steady(sys) && sys.link.Up? && s in sys.receiver.streams && s !in sys.lost && Lone(sys, s) && Roomy(sys, s)
    requires Incoming(sys, s) > G.LateAllowance(sys.receiver, s) && !Usable(sys, s)
    ensures Flooded(Step(sys, ReceiverResets(s)), s)
  {
    StepIsSteady(sys, ReceiverResets(s));
    ResetRecords(sys, s);
    ResetIncoming(sys, Step(sys, ReceiverResets(s)), s);
  }

  // ------------------------------------------------------- a reset that records enough

  ghost function Marked(sys: System, s: int): System {
    sys.(covered := sys.covered + {s})
  }

  lemma MarkedFrame(sys: System, s: int, f: Frame)
    ensures FrameArrives(Marked(sys, s), f) == Marked(FrameArrives(sys, f), s)
  {
  }

  lemma MarkedNotice(sys: System, s: int, n: Notice)
    ensures NoticeArrives(Marked(sys, s), n) == Marked(NoticeArrives(sys, n), s)
  {
  }

  /** Which resets are marked as covered makes no difference to a run. */
  lemma MarkedStep(sys: System, s: int, a: Action)
    ensures Step(Marked(sys, s), a) == Marked(Step(sys, a), s)
  {
    if a.DeliverFrame? && sys.data != [] {
      MarkedFrame(sys.(data := sys.data[1..]), s, sys.data[0]);
    } else if a.DeliverNotice? && sys.notices != [] {
      MarkedNotice(Popped(sys), s, sys.notices[0]);
    }
  }

  lemma {:induction false} MarkedRun(sys: System, s: int, actions: seq<Action>)
    ensures Run(Marked(sys, s), actions) == Marked(Run(sys, actions), s)
    decreases |actions|
  {
    if actions != [] {
      MarkedStep(sys, s, actions[0]);
      MarkedRun(Step(sys, actions[0]), s, actions[1..]);
    }
  }

  lemma EnoughIsTolerated(sys: System, s: int, actions: seq<Action>)
    requires Inv(sys) && sys.link.Up? && s in sys.receiver.streams
    requires Incoming(sys, s) <= G.LateAllowance(sys.receiver, s)
    ensures Tolerated(Run(Step(sys, ReceiverResets(s)), actions), s)
  {
    var reset := Step(sys, ReceiverResets(s));
    ReceiverResetsStep(sys, s);
    ResetAndCoverKeepsInv(sys, s);
    assert Marked(reset, s) == Marked(ReceiverReset(sys, s), s);
    EveryRunIsSafe(Marked(reset, s), actions);
    MarkedRun(reset, s, actions);
  }

  /**
   Late-data tolerance, exactly, from every reachable state and for every stream of
   the receiver, ended or not: if nothing else can be late and the budgets have
   room, no continuation refuses late DATA of the stream unfairly if and only if
   the allowance covers what is in flight and what the sender may still send.
   (DATA of another reset stream ahead of it could end the connection first.)
   */
  lemma RetirementToleratedExactlyWhenEnough(sys: System, s: int)
    requires Steady(sys) && sys.link.Up? && s in sys.receiver.streams && s !in sys.lost
    requires Lone(sys, s) && Roomy(sys, s)
    ensures Incoming(sys, s) <= G.LateAllowance(sys.receiver, s)
            <==> forall actions :: Tolerated(Run(Step(sys, ReceiverResets(s)), actions), s)
  {
    if Incoming(sys, s) <= G.LateAllowance(sys.receiver, s) {
      forall actions ensures Tolerated(Run(Step(sys, ReceiverResets(s)), actions), s) {
        EnoughIsTolerated(sys, s, actions);
      }
    } else {
      var actions;
      if Usable(sys, s) {
        ShortResetDooms(sys, s);
        actions := DoomedIsOverrun(Step(sys, ReceiverResets(s)), s);
      } else {
        ShortResetFloods(sys, s);
        actions := FloodIsRefused(Step(sys, ReceiverResets(s)), s);
      }
      assert !Tolerated(Run(Step(sys, ReceiverResets(s)), actions), s);
    }
  }

  /**
   The condition in the receiver's own terms, for a stream that has not ended and
   that the sender has open or will hear of: its stream credit is the smaller of
   the two terms or no other stream holds bytes.
   */
  lemma RetirementToleratedExactlyWhenSafe(sys: System, s: int)
    requires Steady(sys) && sys.link.Up? && s in sys.receiver.streams && s !in sys.lost && Usable(sys, s)
    requires Lone(sys, s) && Roomy(sys, s)
    ensures SafeToRetire(sys.receiver, s)
            <==> forall actions :: Tolerated(Run(Step(sys, ReceiverResets(s)), actions), s)
  {
    EnoughExactlyWhenSafe(sys, s);
    RetirementToleratedExactlyWhenEnough(sys, s);
  }

  /** From a quiet connection it is enough that the budgets have room for one frame and one byte too many. */
  lemma QuietRetirementToleratedExactlyWhenSafe(sys: System, s: int)
    requires Quiet(sys) && s in sys.receiver.streams && s !in sys.finished && s !in sys.lost
    requires sys.receiver.retired.remainingFrames > 0
    requires sys.receiver.retired.remainingBytes > G.LateAllowance(sys.receiver, s)
    ensures SafeToRetire(sys.receiver, s)
            <==> forall actions :: Tolerated(Run(Step(sys, ReceiverResets(s)), actions), s)
  {
    QuietIsSteady(sys);
    assert Pieces(sys, s) == 0 && Due(sys, s) == 0;
    RetirementToleratedExactlyWhenSafe(sys, s);
  }
}
