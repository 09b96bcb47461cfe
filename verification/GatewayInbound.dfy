/** The gateway's receive window: available and outstanding credit, with retirement of reset streams. */
module GatewayInbound {
  import opened Sums
  import R = RetiredBudget

  datatype Credit = Credit(initial: nat, available: nat, outstanding: nat)

  datatype Inbound = Inbound(
    initial: nat,
    connection: nat,
    streams: map<int, Credit>,
    retired: R.Budget)

  datatype Status =
    | Accepted
    | NotPositive
    | StreamExists
    | StreamMissing
    | ExceedsStream
    | ExceedsConnection
    | ReleaseExceeds
    | AboveMaximum
    | LateRefused(verdict: R.Verdict)

  datatype Op =
    | Open(streamId: int, bytes: int)
    | Consume(streamId: int, bytes: int)
    | Release(streamId: int, bytes: int)
    | CloseStream(streamId: int)
    | Retire(streamId: int)
    | ConsumeRetired(streamId: int, bytes: int)

  datatype Effect = Effect(status: Status, state: Inbound)

  function FreshInbound(initial: nat, maximumFrames: nat): Inbound {
    Inbound(initial, initial, map[], R.FreshBudget(initial, maximumFrames))
  }

  function Shut(g: Inbound, streamId: int): Inbound
    requires streamId in g.streams
  {
    g.(streams := g.streams - {streamId}, connection := g.connection + g.streams[streamId].outstanding)
  }

  /** The allowance recorded for a stream when it is retired. */
  function LateAllowance(g: Inbound, streamId: int): nat
    requires streamId in g.streams
  {
    R.Smaller(g.streams[streamId].available, g.connection)
  }

  function Received(g: Inbound, streamId: int, bytes: nat): Inbound
    requires streamId in g.streams && bytes <= g.streams[streamId].available && bytes <= g.connection
  {
    var credit := g.streams[streamId];
    g.(streams := g.streams[streamId := credit.(available := credit.available - bytes,
                                                outstanding := credit.outstanding + bytes)],
       connection := g.connection - bytes)
  }

  function Returned(g: Inbound, streamId: int, bytes: nat): Inbound
    requires streamId in g.streams && bytes <= g.streams[streamId].outstanding
  {
    var credit := g.streams[streamId];
    g.(streams := g.streams[streamId := credit.(available := credit.available + bytes,
                                                outstanding := credit.outstanding - bytes)],
       connection := g.connection + bytes)
  }

  function Apply(g: Inbound, op: Op): Effect {
    match op
    case Open(s, bytes) =>
      if s <= 0 || bytes <= 0 then Effect(NotPositive, g)
      else if s in g.streams then Effect(StreamExists, g)
      else Effect(Accepted, g.(streams := g.streams[s := Credit(bytes, bytes, 0)]))
    case Consume(s, bytes) =>
      if bytes <= 0 then Effect(NotPositive, g)
      else if s !in g.streams then Effect(StreamMissing, g)
      else if bytes > g.streams[s].available then Effect(ExceedsStream, g)
      else if bytes > g.connection then Effect(ExceedsConnection, g)
      else Effect(Accepted, Received(g, s, bytes))
    case Release(s, bytes) =>
      if bytes <= 0 then Effect(NotPositive, g)
      else if s !in g.streams then Effect(StreamMissing, g)
      else if bytes > g.streams[s].outstanding then Effect(ReleaseExceeds, g)
      else
        var after := Returned(g, s, bytes);
        if after.streams[s].available > after.streams[s].initial || after.connection > g.initial
        then Effect(AboveMaximum, after)
        else Effect(Accepted, after)
    case CloseStream(s) =>
      if s !in g.streams then Effect(Accepted, g)
      else Closing(g, s)
    case Retire(s) =>
      if s !in g.streams then Effect(Accepted, g)
      else Closing(g.(retired := R.Allow(g.retired, s, LateAllowance(g, s))), s)
    case ConsumeRetired(s, bytes) =>
      var verdict := R.Refused(g.retired, s, bytes);
      Effect(if verdict == R.Accepted then Accepted else LateRefused(verdict),
             g.(retired := R.Consume(g.retired, s, bytes)))
  }

  function Closing(g: Inbound, s: int): Effect
    requires s in g.streams
  {
    var after := Shut(g, s);
    Effect(if after.connection > g.initial then AboveMaximum else Accepted, after)
  }

  // ----------------------------------------------------------- invariants

  ghost function Outstanding(streams: map<int, Credit>): map<int, nat> {
    map s | s in streams :: streams[s].outstanding
  }

  ghost predicate Conserved(g: Inbound) {
    && g.connection + Sum(Outstanding(g.streams)) == g.initial
    && (forall s | s in g.streams ::
          s > 0 && g.streams[s].available + g.streams[s].outstanding == g.streams[s].initial)
  }

  ghost predicate Valid(g: Inbound) {
    Conserved(g) && R.WellFormed(g.retired) && g.retired.maximumBytes == g.initial
  }

  lemma OpenConserves(g: Inbound, s: int, bytes: nat)
    requires Conserved(g) && s > 0 && s !in g.streams
    ensures Conserved(g.(streams := g.streams[s := Credit(bytes, bytes, 0)]))
  {
    var before := Outstanding(g.streams);
    assert Outstanding(g.streams[s := Credit(bytes, bytes, 0)]) == before[s := 0];
    SumOfUpdate(before, s, 0);
  }

  lemma ReceivedConserves(g: Inbound, s: int, bytes: nat)
    requires Conserved(g) && s in g.streams && bytes <= g.streams[s].available && bytes <= g.connection
    ensures Conserved(Received(g, s, bytes))
  {
    var before := Outstanding(g.streams);
    assert Outstanding(Received(g, s, bytes).streams) == before[s := before[s] + bytes];
    SumOfUpdate(before, s, before[s] + bytes);
  }

  lemma ReturnedConserves(g: Inbound, s: int, bytes: nat)
    requires Conserved(g) && s in g.streams && bytes <= g.streams[s].outstanding
    ensures Conserved(Returned(g, s, bytes))
  {
    var before := Outstanding(g.streams);
    assert Outstanding(Returned(g, s, bytes).streams) == before[s := before[s] - bytes];
    SumOfUpdate(before, s, before[s] - bytes);
  }

  lemma ShutConserves(g: Inbound, s: int)
    requires Conserved(g) && s in g.streams
    ensures Conserved(Shut(g, s))
  {
    var before := Outstanding(g.streams);
    assert Outstanding(g.streams - {s}) == before - {s};
    SumTakesAnyKey(before, s);
  }

  /** Every operation keeps the invariant; the errors about credit above its maximum are unreachable. */
  lemma ApplyKeepsValid(g: Inbound, op: Op)
    requires Valid(g)
    ensures Valid(Apply(g, op).state)
    ensures Apply(g, op).status != AboveMaximum
  {
    var s := op.streamId;
    if op.Open? && s > 0 && op.bytes > 0 && s !in g.streams {
      OpenConserves(g, s, op.bytes);
    } else if op.Consume? && Apply(g, op).status == Accepted {
      ReceivedConserves(g, s, op.bytes);
    } else if op.Release? && op.bytes > 0 && s in g.streams && op.bytes <= g.streams[s].outstanding {
      ReturnedConserves(g, s, op.bytes);
    } else if op.CloseStream? && s in g.streams {
      ShutConserves(g, s);
    } else if op.Retire? && s in g.streams {
      R.AllowKeepsWellFormed(g.retired, s, LateAllowance(g, s));
      ShutConserves(g.(retired := R.Allow(g.retired, s, LateAllowance(g, s))), s);
    } else if op.ConsumeRetired? && R.Refused(g.retired, s, op.bytes) == R.Accepted {
      R.SpentKeepsWellFormed(g.retired, s, op.bytes);
    }
  }

  lemma FreshIsValid(initial: nat, maximumFrames: nat)
    ensures Valid(FreshInbound(initial, maximumFrames))
  {
    assert Outstanding(map[]) == map[];
  }

  function Run(g: Inbound, ops: seq<Op>): Inbound
    decreases |ops|
  {
    if ops == [] then g else Run(Apply(g, ops[0]).state, ops[1..])
  }

  lemma {:induction false} EveryRunIsValid(g: Inbound, ops: seq<Op>)
    requires Valid(g)
    ensures Valid(Run(g, ops))
    decreases |ops|
  {
    if ops != [] {
      ApplyKeepsValid(g, ops[0]);
      EveryRunIsValid(Apply(g, ops[0]).state, ops[1..]);
    }
  }

  // -------------------------------------------------------- as it is kept

  class GatewayInboundFlow {
    const initialConnectionBytes: nat
    var connectionAvailable: nat
    var streams: map<int, Credit>
    const retiredData: R.RetiredDataBudget

    ghost function State(): Inbound
      reads this, retiredData
    {
      Inbound(initialConnectionBytes, connectionAvailable, streams, retiredData.State())
    }

    constructor (initialBytes: nat, maximumFrames: nat)
      requires initialBytes > 0 && maximumFrames > 0
      ensures State() == FreshInbound(initialBytes, maximumFrames)
      ensures fresh(retiredData)
    {
      initialConnectionBytes := initialBytes;
      connectionAvailable := initialBytes;
      streams := map[];
      retiredData := new R.RetiredDataBudget(initialBytes, maximumFrames);
    }

    method OpenStream(streamId: int, initialStreamBytes: int) returns (status: Status)
      modifies this
      ensures Effect(status, State()) == Apply(old(State()), Open(streamId, initialStreamBytes))
    {
      if streamId <= 0 || initialStreamBytes <= 0 { return NotPositive; }
      if streamId in streams { return StreamExists; }
      streams := streams[streamId := Credit(initialStreamBytes, initialStreamBytes, 0)];
      return Accepted;
    }

    method ConsumeData(streamId: int, bytes: int) returns (status: Status)
      modifies this
      ensures Effect(status, State()) == Apply(old(State()), Consume(streamId, bytes))
    {
      if bytes <= 0 { return NotPositive; }
      if streamId !in streams { return StreamMissing; }
      var stream := streams[streamId];
      if bytes > stream.available { return ExceedsStream; }
      if bytes > connectionAvailable { return ExceedsConnection; }
      streams := streams[streamId := Credit(stream.initial, stream.available - bytes, stream.outstanding + bytes)];
      connectionAvailable := connectionAvailable - bytes;
      return Accepted;
    }

    method ReleaseData(streamId: int, bytes: int) returns (status: Status)
      modifies this
      ensures Effect(status, State()) == Apply(old(State()), Release(streamId, bytes))
    {
      if bytes <= 0 { return NotPositive; }
      if streamId !in streams { return StreamMissing; }
      var stream := streams[streamId];
      if bytes > stream.outstanding { return ReleaseExceeds; }
      streams := streams[streamId := Credit(stream.initial, stream.available + bytes, stream.outstanding - bytes)];
      connectionAvailable := connectionAvailable + bytes;
      if streams[streamId].available > stream.initial || connectionAvailable > initialConnectionBytes {
        return AboveMaximum;
      }
      return Accepted;
    }

    method Shutdown(streamId: int) returns (status: Status)
      modifies this
      ensures Effect(status, State()) == Apply(old(State()), CloseStream(streamId))
    {
      if streamId !in streams { return Accepted; }
      var stream := streams[streamId];
      streams := streams - {streamId};
      connectionAvailable := connectionAvailable + stream.outstanding;
      return if connectionAvailable > initialConnectionBytes then AboveMaximum else Accepted;
    }

    method RetireStream(streamId: int) returns (status: Status)
      requires streamId in streams ==> streamId > 0
      modifies this, retiredData
      ensures Effect(status, State()) == Apply(old(State()), Retire(streamId))
    {
      if streamId !in streams { return Accepted; }
      var stream := streams[streamId];
      var _ := retiredData.AllowLate(streamId, R.Smaller(stream.available, connectionAvailable));
      status := Shutdown(streamId);
    }

    method ConsumeRetiredData(streamId: int, bytes: int) returns (status: Status)
      modifies this, retiredData
      ensures Effect(status, State()) == Apply(old(State()), ConsumeRetired(streamId, bytes))
    {
      var verdict := retiredData.ConsumeLate(streamId, bytes);
      return if verdict == R.Accepted then Accepted else LateRefused(verdict);
    }
  }
}
