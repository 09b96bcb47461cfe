/**
 One direction of a carrier connection: the sender's window, the receiver's
 window, and the two channels between them. Either end may create a stream or
 reset it; the sender may end it. The steps call the two window models, so what
 is proved here is about them, not about an abstraction of them.
 */
module CreditProtocol {
  import opened Channel
  import F = FlowWindow
  import G = GatewayInbound
  import R = RetiredBudget

  datatype Fault =
    | CreditRefused(streamId: int, bytes: nat, status: G.Status)
    | LateRefused(streamId: int, bytes: nat)
    | UpdateRefused(streamId: int, bytes: nat, reason: F.Status)

  datatype Link = Up | Down(fault: Fault)

  /**
   `windows` is the window each stream was created with. The last five sets are
   history: streams the sender ended, streams whose END arrived, streams the
   receiver reset, those reset when it was safe, and those whose allowance the
   late-data budget no longer keeps.
   */
  datatype System = System(
    sender: F.Window,
    receiver: G.Inbound,
    data: seq<Frame>,
    notices: seq<Notice>,
    windows: map<int, nat>,
    finished: set<int>,
    drained: set<int>,
    cancelled: set<int>,
    covered: set<int>,
    lost: set<int>,
    link: Link)

  datatype Action =
    | SenderOpens(streamId: int, window: nat)
    | ReceiverOpens(streamId: int, window: nat)
    | SenderTakes(streamId: int, maximum: nat)
    | SenderEnds(streamId: int)
    | SenderResets(streamId: int)
    | SenderCloses(streamId: int)
    | ReceiverReleases(streamId: int, bytes: nat)
    | ReceiverResets(streamId: int)
    | ReceiverCloses(streamId: int)
    | DeliverFrame
    | DeliverNotice

  function Begin(initial: nat, maximumFrames: nat): System {
    System(F.Fresh(initial), G.FreshInbound(initial, maximumFrames), [], [], map[], {}, {}, {}, {}, {}, Up)
  }

  // ---------------------------------------------------------------- steps

  /** A grant and the DATA frame it pays for are one step. */
  function DataFrames(log: seq<F.Outcome>): seq<Frame> {
    if log == [] then []
    else (if log[0].Granted? then [Data(log[0].waiter.streamId, log[0].bytes)] else []) + DataFrames(log[1..])
  }

  /** The sender's window performs `op`; the frames it calls for go out first, then what it grants. */
  function Emit(sys: System, op: F.Op, control: seq<Frame>): System {
    var effect := F.Apply(sys.sender, op);
    sys.(sender := effect.window, data := sys.data + control + DataFrames(effect.log))
  }

  predicate Waiting(w: F.Window, streamId: int) {
    exists i :: 0 <= i < |w.waiters| && w.waiters[i].streamId == streamId
  }

  /** The receiver can see whether the allowance it is about to record covers whatever may still arrive. */
  ghost predicate SafeToRetire(g: G.Inbound, s: int)
    requires s in g.streams
  {
    || g.streams[s].available <= g.connection
    || forall t | t in g.streams && t != s :: g.streams[t].outstanding == 0
  }

  function LostByRetiring(b: R.Budget, s: int, bytes: nat): set<int> {
    if b.remainingFrames == 0 || b.remainingBytes == 0 then {s}
    else if bytes > 0 && |b.entries| >= b.maximumFrames && b.entries != [] then {b.entries[0].streamId}
    else {}
  }

  predicate Enabled(sys: System, a: Action) {
    match a
    case SenderOpens(s, window) => s > 0 && window > 0 && s !in sys.windows
    case ReceiverOpens(s, window) => s > 0 && window > 0 && s !in sys.windows
    case SenderTakes(s, maximum) => maximum > 0 && s in sys.sender.streams && s !in sys.finished
    case SenderEnds(s) => s in sys.sender.streams && s !in sys.finished && !Waiting(sys.sender, s)
    case SenderResets(s) => s in sys.sender.streams
    case SenderCloses(s) => s in sys.sender.streams && s in sys.finished && sys.sender.streams[s].outstanding == 0
    case ReceiverReleases(s, bytes) => s in sys.receiver.streams && 0 < bytes <= sys.receiver.streams[s].outstanding
    case ReceiverResets(s) => s in sys.receiver.streams
    case ReceiverCloses(s) => s in sys.receiver.streams && s in sys.drained && sys.receiver.streams[s].outstanding == 0
    case DeliverFrame => sys.data != []
    case DeliverNotice => sys.notices != []
  }

  function Receive(sys: System, op: G.Op): System {
    sys.(receiver := G.Apply(sys.receiver, op).state)
  }

  function Consumption(sys: System, s: int, bytes: nat): System {
    var effect := G.Apply(sys.receiver, G.Consume(s, bytes));
    if effect.status == G.Accepted then sys.(receiver := effect.state)
    else sys.(link := Down(CreditRefused(s, bytes, effect.status)))
  }

  function LateConsumption(sys: System, s: int, bytes: nat): System {
    var effect := G.Apply(sys.receiver, G.ConsumeRetired(s, bytes));
    if effect.status != G.Accepted then sys.(link := Down(LateRefused(s, bytes)))
    else
      var left := effect.state.retired;
      sys.(receiver := effect.state,
           lost := if left.remainingFrames == 0 || left.remainingBytes == 0 then sys.lost + sys.cancelled else sys.lost)
  }

  function FrameArrives(sys: System, f: Frame): System {
    match f
    case Open(s, window) => Receive(sys, G.Open(s, window))
    case Data(s, bytes) =>
      if s in sys.receiver.streams then Consumption(sys, s, bytes) else LateConsumption(sys, s, bytes)
    case End(s) => sys.(drained := sys.drained + {s})
    case Reset(s) => Receive(sys, G.CloseStream(s))
  }

  function NoticeArrives(sys: System, n: Notice): System {
    match n
    case Announce(s, window) => Emit(sys, F.OpenStream(s, window), [])
    case Credit(s, bytes) =>
      if s !in sys.sender.streams then sys
      else
        var effect := F.Apply(sys.sender, F.Update(s, bytes));
        if effect.status == F.Done then Emit(sys, F.Update(s, bytes), [])
        else sys.(link := Down(UpdateRefused(s, bytes, effect.status)))
    case Cancel(s) =>
      if s in sys.sender.streams then Emit(sys, F.CloseStream(s), []) else sys
  }

  /** A disabled action, or any action on a connection that is down, changes nothing. */
  ghost function Step(sys: System, a: Action): System {
    if sys.link.Down? || !Enabled(sys, a) then sys
    else
      match a
      case SenderOpens(s, window) =>
        Emit(sys, F.OpenStream(s, window), [Open(s, window)]).(windows := sys.windows[s := window])
      case ReceiverOpens(s, window) =>
        Receive(sys, G.Open(s, window)).(
          notices := sys.notices + [Announce(s, window)],
          windows := sys.windows[s := window])
      case SenderTakes(s, maximum) =>
        Emit(sys, F.Take(s, maximum), [])
      case SenderEnds(s) =>
        sys.(data := sys.data + [End(s)], finished := sys.finished + {s})
      case SenderResets(s) =>
        Emit(sys, F.CloseStream(s), [Reset(s)])
      case SenderCloses(s) =>
        Emit(sys, F.CloseStream(s), [])
      case ReceiverReleases(s, bytes) =>
        Receive(sys, G.Release(s, bytes)).(notices := sys.notices + [Credit(s, bytes)])
      case ReceiverResets(s) =>
        Receive(sys, G.Retire(s)).(
          notices := sys.notices + [Cancel(s)],
          cancelled := sys.cancelled + {s},
          covered := if SafeToRetire(sys.receiver, s) then sys.covered + {s} else sys.covered,
          lost := sys.lost + LostByRetiring(sys.receiver.retired, s, G.LateAllowance(sys.receiver, s)))
      case ReceiverCloses(s) =>
        Receive(sys, G.CloseStream(s))
      case DeliverFrame =>
        FrameArrives(sys.(data := sys.data[1..]), sys.data[0])
      case DeliverNotice =>
        NoticeArrives(sys.(notices := sys.notices[1..]), sys.notices[0])
  }

  ghost function Run(sys: System, actions: seq<Action>): System
    decreases |actions|
  {
    if actions == [] then sys else Run(Step(sys, actions[0]), actions[1..])
  }

  // ----------------------------------------------------------- invariants

  ghost function Held(g: G.Inbound): Load {
    G.Outstanding(g.streams)
  }

  /** What the receiver will hold when it has read everything in flight. */
  ghost function Future(sys: System): Load {
    Replay(Held(sys.receiver), sys.data)
  }

  ghost predicate WindowsValid(sys: System) {
    && F.Queued(sys.sender) && F.Conserved(sys.sender, sys.windows) && !sys.sender.closed
    && G.Valid(sys.receiver)
    && sys.sender.initial == sys.receiver.initial
    && (forall s | s in sys.receiver.streams :: s in sys.windows && sys.receiver.streams[s].initial == sys.windows[s])
    && (forall s | s in sys.windows :: s > 0 && sys.windows[s] > 0)
  }

  /**
   What the sender counts as outstanding on a stream is in flight, held by the
   receiver, or on its way back as credit.
   */
  ghost predicate Linked(sys: System) {
    && (forall s | s in Future(sys) && s in sys.sender.streams ::
          sys.sender.streams[s].outstanding == Future(sys)[s] + Credited(sys.notices, s))
    && (forall s | s in Future(sys) && s !in sys.sender.streams :: Future(sys)[s] == 0)
    && (forall s | s in sys.sender.streams && s !in Future(sys) ::
          Credited(sys.notices, s) <= sys.sender.streams[s].outstanding && (s in sys.cancelled || s in sys.finished))
  }

  ghost predicate Paced(sys: System) {
    Fits(Held(sys.receiver), sys.data, sys.windows, sys.cancelled, sys.receiver.initial)
  }

  ghost predicate Announced(sys: System, s: int) {
    exists i :: 0 <= i < |sys.notices| && sys.notices[i].Announce? && sys.notices[i].streamId == s
  }

  ghost predicate FramesNamed(sys: System) {
    && (forall i | 0 <= i < |sys.data| :: sys.data[i].streamId in sys.windows)
    && (forall i | 0 <= i < |sys.data| && sys.data[i].Open? ::
          && sys.data[i].window == sys.windows[sys.data[i].streamId]
          && sys.data[i].streamId !in sys.receiver.streams
          && sys.data[i].streamId !in sys.cancelled)
    && (forall i, j | 0 <= i < j < |sys.data| && sys.data[i].Open? && sys.data[j].Open? ::
          sys.data[i].streamId != sys.data[j].streamId)
    && (forall i | 0 <= i < |sys.data| && sys.data[i].Reset? :: sys.data[i].streamId !in sys.sender.streams)
  }

  /** A stream the receiver announced is untouched until the sender learns of it. */
  ghost predicate NoticesNamed(sys: System) {
    && (forall i | 0 <= i < |sys.notices| :: sys.notices[i].streamId in sys.windows)
    && (forall i | 0 <= i < |sys.notices| && sys.notices[i].Credit? :: sys.notices[i].bytes > 0)
    && (forall i | 0 <= i < |sys.notices| && sys.notices[i].Announce? ::
          && sys.notices[i].window == sys.windows[sys.notices[i].streamId]
          && sys.notices[i].streamId !in sys.sender.streams
          && !Mentions(sys.data, sys.notices[i].streamId)
          && (sys.notices[i].streamId in sys.receiver.streams ==>
                sys.receiver.streams[sys.notices[i].streamId].outstanding == 0)
          && sys.notices[i].streamId !in sys.finished
          && (sys.notices[i].streamId in sys.receiver.streams || sys.notices[i].streamId in sys.cancelled))
    && (forall i | 0 <= i < |sys.notices| && sys.notices[i].Cancel? :: sys.notices[i].streamId in sys.cancelled)
    && (forall i, j | 0 <= i < |sys.notices| && 0 <= j < |sys.notices| && i != j && sys.notices[i].Announce?
                      && sys.notices[j].streamId == sys.notices[i].streamId :: sys.notices[j].Cancel?)
  }

  ghost predicate SetsNamed(sys: System) {
    && sys.finished <= sys.windows.Keys
    && sys.drained <= sys.finished
    && sys.cancelled <= sys.windows.Keys
    && sys.covered <= sys.cancelled
    && (forall s | s in sys.receiver.streams :: s !in sys.cancelled)
    && (forall s | s in sys.sender.streams :: s in sys.windows)
    && (forall i | 0 <= i < |sys.receiver.retired.entries| :: sys.receiver.retired.entries[i].streamId in sys.cancelled)
  }

  ghost predicate EndsLast(sys: System) {
    && (forall i | 0 <= i < |sys.sender.waiters| :: sys.sender.waiters[i].streamId !in sys.finished)
    && (forall i | 0 <= i < |sys.data| && sys.data[i].End? :: sys.data[i].streamId in sys.finished)
    && (forall i, j | 0 <= i < j < |sys.data| && sys.data[i].End? && sys.data[j].Data? ::
          sys.data[i].streamId != sys.data[j].streamId)
    && (forall i | 0 <= i < |sys.data| && sys.data[i].Data? :: sys.data[i].streamId !in sys.drained)
  }

  /** Bytes the sender may still put on a stream without a new credit; after its END there are none. */
  ghost function Potential(sys: System, s: int): int {
    if s !in sys.windows || s in sys.finished then 0
    else if s in sys.sender.streams then
      F.Min(sys.windows[s], sys.sender.initial) - sys.sender.streams[s].outstanding + Credited(sys.notices, s)
    else if Announced(sys, s) then F.Min(sys.windows[s], sys.sender.initial)
    else 0
  }

  /** A safely reset stream has room for all DATA in flight and all DATA that can still be sent on it. */
  ghost predicate LateCovered(sys: System) {
    forall s | s in sys.covered && s !in sys.lost ::
      Bytes(sys.data, s) + Potential(sys, s) <= R.Allowed(sys.receiver.retired.entries, s)
  }

  ghost predicate Named(sys: System) {
    FramesNamed(sys) && NoticesNamed(sys) && SetsNamed(sys) && EndsLast(sys)
  }

  ghost predicate Inv(sys: System) {
    WindowsValid(sys) && Linked(sys) && Paced(sys) && Named(sys) && LateCovered(sys)
  }

  // -------------------------------------------------- what a drain emits

  lemma {:induction false} DataFramesOfConcat(a: seq<F.Outcome>, b: seq<F.Outcome>)
    ensures DataFrames(a + b) == DataFrames(a) + DataFrames(b)
  {
    if a == [] {
      assert a + b == b;
    } else {
      assert (a + b)[1..] == a[1..] + b;
      DataFramesOfConcat(a[1..], b);
    }
  }

  lemma {:induction false} RejectionsSendNothing(log: seq<F.Outcome>)
    requires forall i | 0 <= i < |log| :: log[i].Rejected?
    ensures DataFrames(log) == []
  {
    if log != [] {
      RejectionsSendNothing(log[1..]);
    }
  }

  /** The streams that requests in the queue wait for. */
  ghost function Wanted(waiters: seq<F.Waiter>): set<int> {
    set i | 0 <= i < |waiters| :: waiters[i].streamId
  }

  ghost predicate Payable(frames: seq<Frame>, w: F.Window) {
    forall i | 0 <= i < |frames| ::
      && frames[i].Data? && frames[i].bytes > 0
      && frames[i].streamId in w.streams && frames[i].streamId in Wanted(w.waiters)
  }

  lemma PayableHead(w: F.Window, index: nat, granted: nat, inner: F.Window, frames: seq<Frame>)
    requires index < |w.waiters| && granted > 0
    requires w.waiters[index].streamId in w.streams
    requires inner.streams.Keys == w.streams.Keys && inner.waiters == F.RemoveAt(w.waiters, index)
    requires Payable(frames, inner)
    ensures Payable([Data(w.waiters[index].streamId, granted)] + frames, w)
  {
    assert w.waiters[index].streamId in Wanted(w.waiters);
    forall s | s in Wanted(inner.waiters) ensures s in Wanted(w.waiters) {
      var i :| 0 <= i < |inner.waiters| && inner.waiters[i].streamId == s;
      assert inner.waiters[i] == w.waiters[if i < index then i else i + 1];
    }
  }

  lemma PayableBelow(w: F.Window, index: nat, inner: F.Window, frames: seq<Frame>)
    requires index < |w.waiters|
    requires inner.streams.Keys == w.streams.Keys && inner.waiters == F.RemoveAt(w.waiters, index)
    requires Payable(frames, inner)
    ensures Payable(frames, w)
  {
    forall s | s in Wanted(inner.waiters) ensures s in Wanted(w.waiters) {
      var i :| 0 <= i < |inner.waiters| && inner.waiters[i].streamId == s;
      assert inner.waiters[i] == w.waiters[if i < index then i else i + 1];
    }
  }

  ghost predicate Charged(before: F.Window, after: F.Window, frames: seq<Frame>) {
    && after.streams.Keys == before.streams.Keys
    && forall s | s in before.streams ::
         after.streams[s].outstanding == before.streams[s].outstanding + Bytes(frames, s)
  }

  /** Every granted byte is sent, on a stream that asked for it, and is charged to that stream. */
  lemma {:induction false} DrainEmits(w: F.Window, index: nat)
    requires index <= |w.waiters|
    ensures Payable(DataFrames(F.Drain(w, index).log), w)
    ensures Charged(w, F.Drain(w, index).window, DataFrames(F.Drain(w, index).log))
    decreases |w.waiters| - index
  {
    if index < |w.waiters| {
      var waiter := w.waiters[index];
      var rest := F.RemoveAt(w.waiters, index);
      if waiter.streamId !in w.streams {
        var inner := w.(waiters := rest);
        DrainEmits(inner, index);
        var log := F.Drain(w, index).log;
        assert log[1..] == F.Drain(inner, index).log;
        assert DataFrames(log) == DataFrames(F.Drain(inner, index).log);
        PayableBelow(w, index, inner, DataFrames(F.Drain(inner, index).log));
      } else if F.Grantable(w, waiter) == 0 {
        DrainEmits(w, index + 1);
      } else {
        var granted := F.Grantable(w, waiter);
        var inner := F.Spend(w, waiter.streamId, granted).(waiters := rest);
        DrainEmits(inner, index);
        var log := F.Drain(w, index).log;
        var frames := DataFrames(F.Drain(inner, index).log);
        assert log[1..] == F.Drain(inner, index).log;
        assert DataFrames(log) == [Data(waiter.streamId, granted)] + frames;
        PayableHead(w, index, granted, inner, frames);
        ChargedHead(w, inner, F.Drain(w, index).window, waiter.streamId, granted, frames);
      }
    }
  }

  lemma ChargedHead(w: F.Window, inner: F.Window, after: F.Window, s: int, granted: nat, frames: seq<Frame>)
    requires s in w.streams && granted <= w.streams[s].available && granted <= w.connection
    requires inner.streams == F.Spend(w, s, granted).streams
    requires Charged(inner, after, frames)
    ensures Charged(w, after, [Data(s, granted)] + frames)
  {
    forall t | t in w.streams
      ensures after.streams[t].outstanding == w.streams[t].outstanding + Bytes([Data(s, granted)] + frames, t)
    {
      BytesOfConcat([Data(s, granted)], frames, t);
      assert Bytes([Data(s, granted)], t) == if t == s then granted else 0 by {
        assert [Data(s, granted)][1..] == [];
      }
    }
  }

  /** A system whose sender has prepared an operation and now serves its queue. */
  function Served(sys: System): System {
    var drain := F.Drain(sys.sender, 0);
    sys.(sender := drain.window, data := sys.data + DataFrames(drain.log))
  }

  lemma EmitServes(sys: System, op: F.Op, control: seq<Frame>)
    requires F.Prepare(sys.sender, op).Serve?
    ensures Emit(sys, op, control)
            == Served(sys.(sender := F.Prepare(sys.sender, op).window, data := sys.data + control))
  {
    var ready := F.Prepare(sys.sender, op);
    var drain := F.Drain(ready.window, 0);
    if op.CloseStream? {
      F.KeptMembers(sys.sender.waiters, op.streamId);
      forall i | 0 <= i < |ready.log| ensures ready.log[i].Rejected? {
        assert ready.log[i] in ready.log;
      }
    }
    DataFramesOfConcat(ready.log, drain.log);
    RejectionsSendNothing(ready.log);
    assert F.Apply(sys.sender, op).log == ready.log + drain.log;
  }
}
