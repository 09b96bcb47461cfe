/**
 The client's receive window counts consumed bytes and pending frames instead of
 available credit. Under consumed = initial - available it is the gateway's
 window with a frame limit added.
 */
module ClientInbound {
  import opened Sums
  import R = RetiredBudget
  import G = GatewayInbound

  const MAX_STREAM_ID := 0xffff_ffff

  datatype Stream = Stream(limit: nat, consumedBytes: nat, pendingFrames: nat)

  datatype Client = Client(
    limit: nat,
    maxPendingFrames: nat,
    streams: map<int, Stream>,
    consumedBytes: nat,
    pendingFrames: nat,
    retired: R.Budget)

  /** The client refuses for the gateway's reasons, or because of its frame count. */
  datatype Status = Shared(status: G.Status) | TooManyFrames | NoPendingFrame | NotUint32

  datatype Effect = Effect(status: Status, state: Client)

  function FreshClient(limit: nat, maxPendingFrames: nat): Client {
    Client(limit, maxPendingFrames, map[], 0, 0, R.FreshBudget(limit, maxPendingFrames))
  }

  function Taken(c: Client, s: int, bytes: nat): Client
    requires s in c.streams
  {
    var stream := c.streams[s];
    c.(streams := c.streams[s := Stream(stream.limit, stream.consumedBytes + bytes, stream.pendingFrames + 1)],
       consumedBytes := c.consumedBytes + bytes,
       pendingFrames := c.pendingFrames + 1)
  }

  function Minus(a: nat, b: nat): nat {
    if a <= b then 0 else a - b
  }

  function Given(c: Client, s: int, bytes: nat): Client
    requires s in c.streams && bytes <= c.streams[s].consumedBytes && c.streams[s].pendingFrames > 0
  {
    var stream := c.streams[s];
    c.(streams := c.streams[s := Stream(stream.limit, stream.consumedBytes - bytes, stream.pendingFrames - 1)],
       consumedBytes := Minus(c.consumedBytes, bytes),
       pendingFrames := Minus(c.pendingFrames, 1))
  }

  function Shut(c: Client, s: int): Client
    requires s in c.streams
  {
    c.(streams := c.streams - {s},
       consumedBytes := Minus(c.consumedBytes, c.streams[s].consumedBytes),
       pendingFrames := Minus(c.pendingFrames, c.streams[s].pendingFrames))
  }

  function LateAllowance(c: Client, s: int): nat
    requires s in c.streams
  {
    R.Smaller(Minus(c.streams[s].limit, c.streams[s].consumedBytes), Minus(c.limit, c.consumedBytes))
  }

  function Apply(c: Client, op: G.Op): Effect {
    match op
    case Open(s, bytes) =>
      if s > MAX_STREAM_ID then Effect(NotUint32, c)
      else if s <= 0 || bytes <= 0 then Effect(Shared(G.NotPositive), c)
      else if s in c.streams then Effect(Shared(G.StreamExists), c)
      else Effect(Shared(G.Accepted), c.(streams := c.streams[s := Stream(bytes, 0, 0)]))
    case Consume(s, bytes) =>
      if bytes <= 0 then Effect(Shared(G.NotPositive), c)
      else if s !in c.streams then Effect(Shared(G.StreamMissing), c)
      else if c.streams[s].consumedBytes + bytes > c.streams[s].limit then Effect(Shared(G.ExceedsStream), c)
      else if c.consumedBytes + bytes > c.limit then Effect(Shared(G.ExceedsConnection), c)
      else if c.pendingFrames >= c.maxPendingFrames then Effect(TooManyFrames, c)
      else Effect(Shared(G.Accepted), Taken(c, s, bytes))
    case Release(s, bytes) =>
      if bytes <= 0 then Effect(Shared(G.NotPositive), c)
      else if s !in c.streams then Effect(Shared(G.StreamMissing), c)
      else if c.streams[s].consumedBytes < bytes then Effect(Shared(G.ReleaseExceeds), c)
      else if c.streams[s].pendingFrames == 0 then Effect(NoPendingFrame, c)
      else Effect(Shared(G.Accepted), Given(c, s, bytes))
    case CloseStream(s) =>
      Effect(Shared(G.Accepted), if s in c.streams then Shut(c, s) else c)
    case Retire(s) =>
      if s !in c.streams then Effect(Shared(G.Accepted), c)
      else Effect(Shared(G.Accepted), Shut(c.(retired := R.Allow(c.retired, s, LateAllowance(c, s))), s))
    case ConsumeRetired(s, bytes) =>
      var verdict := R.Refused(c.retired, s, bytes);
      Effect(Shared(if verdict == R.Accepted then G.Accepted else G.LateRefused(verdict)),
             c.(retired := R.Consume(c.retired, s, bytes)))
  }

  // ----------------------------------------------------------- invariants

  ghost function Consumed(streams: map<int, Stream>): map<int, nat> {
    map s | s in streams :: streams[s].consumedBytes
  }

  ghost function Frames(streams: map<int, Stream>): map<int, nat> {
    map s | s in streams :: streams[s].pendingFrames
  }

  /** The connection counters are the sums of the stream counters, and within their limits. */
  ghost predicate Counted(c: Client) {
    && c.consumedBytes == Sum(Consumed(c.streams)) <= c.limit
    && c.pendingFrames == Sum(Frames(c.streams)) <= c.maxPendingFrames
    && (forall s | s in c.streams :: c.streams[s].consumedBytes <= c.streams[s].limit)
  }

  lemma ReplacedStream(streams: map<int, Stream>, s: int, next: Stream)
    ensures Sum(Consumed(streams[s := next])) + (if s in streams then streams[s].consumedBytes else 0)
            == Sum(Consumed(streams)) + next.consumedBytes
    ensures Sum(Frames(streams[s := next])) + (if s in streams then streams[s].pendingFrames else 0)
            == Sum(Frames(streams)) + next.pendingFrames
  {
    assert Consumed(streams[s := next]) == Consumed(streams)[s := next.consumedBytes];
    assert Frames(streams[s := next]) == Frames(streams)[s := next.pendingFrames];
    SumOfUpdate(Consumed(streams), s, next.consumedBytes);
    SumOfUpdate(Frames(streams), s, next.pendingFrames);
  }

  lemma RemovedStream(streams: map<int, Stream>, s: int)
    requires s in streams
    ensures Sum(Consumed(streams)) == streams[s].consumedBytes + Sum(Consumed(streams - {s}))
    ensures Sum(Frames(streams)) == streams[s].pendingFrames + Sum(Frames(streams - {s}))
  {
    assert Consumed(streams - {s}) == Consumed(streams) - {s};
    assert Frames(streams - {s}) == Frames(streams) - {s};
    SumTakesAnyKey(Consumed(streams), s);
    SumTakesAnyKey(Frames(streams), s);
  }

  /** The counters stay exact, so pending frames never pass the limit and never go below zero. */
  lemma ApplyKeepsCounted(c: Client, op: G.Op)
    requires Counted(c)
    ensures Counted(Apply(c, op).state)
  {
    match op {
      case Open(s, bytes) =>
        if Apply(c, op).state != c {
          ReplacedStream(c.streams, s, Stream(bytes, 0, 0));
        }
      case Consume(s, bytes) =>
        if Apply(c, op).status == Shared(G.Accepted) {
          TakenIsCounted(c, s, bytes);
        }
      case Release(s, bytes) =>
        if Apply(c, op).status == Shared(G.Accepted) {
          GivenIsCounted(c, s, bytes);
        }
      case CloseStream(s) =>
        if s in c.streams {
          RemovedStream(c.streams, s);
        }
      case Retire(s) =>
        if s in c.streams {
          RemovedStream(c.streams, s);
        }
      case ConsumeRetired(_, _) =>
    }
  }

  lemma TakenIsCounted(c: Client, s: int, bytes: nat)
    requires Counted(c) && s in c.streams && c.pendingFrames < c.maxPendingFrames
    requires c.streams[s].consumedBytes + bytes <= c.streams[s].limit && c.consumedBytes + bytes <= c.limit
    ensures Counted(Taken(c, s, bytes))
  {
    ReplacedStream(c.streams, s, Taken(c, s, bytes).streams[s]);
  }

  /** What is given back was counted for the connection too, so subtracting it never stops at zero. */
  lemma HeldIsCounted(c: Client, s: int)
    requires Counted(c) && s in c.streams
    ensures c.streams[s].consumedBytes <= c.consumedBytes && c.streams[s].pendingFrames <= c.pendingFrames
  {
    SumBoundsEachKey(Consumed(c.streams), s);
    SumBoundsEachKey(Frames(c.streams), s);
  }

  lemma GivenIsCounted(c: Client, s: int, bytes: nat)
    requires Counted(c) && s in c.streams && bytes <= c.streams[s].consumedBytes && c.streams[s].pendingFrames > 0
    ensures Counted(Given(c, s, bytes))
    ensures Given(c, s, bytes).consumedBytes == c.consumedBytes - bytes
    ensures Given(c, s, bytes).pendingFrames == c.pendingFrames - 1
  {
    HeldIsCounted(c, s);
    ReplacedStream(c.streams, s, Given(c, s, bytes).streams[s]);
  }

  // ---------------------------------------------------- the two encodings

  /** consumed = initial - available, stream by stream and for the connection. */
  ghost predicate Mirrors(c: Client, g: G.Inbound) {
    && c.limit == g.initial
    && c.retired == g.retired
    && c.streams.Keys == g.streams.Keys
    && (forall s | s in c.streams ::
          && c.streams[s].limit == g.streams[s].initial
          && c.streams[s].consumedBytes == g.streams[s].outstanding)
    && c.consumedBytes + g.connection == g.initial
  }

  /** The refusals only the client has. */
  predicate FrameGuard(c: Client, op: G.Op) {
    match op
    case Open(s, _) => s > MAX_STREAM_ID
    case Consume(s, bytes) =>
      && bytes > 0 && s in c.streams
      && c.streams[s].consumedBytes + bytes <= c.streams[s].limit
      && c.consumedBytes + bytes <= c.limit
      && c.pendingFrames >= c.maxPendingFrames
    case Release(s, bytes) =>
      bytes > 0 && s in c.streams && bytes <= c.streams[s].consumedBytes && c.streams[s].pendingFrames == 0
    case _ => false
  }

  lemma SameOnConsume(c: Client, g: G.Inbound, s: int, bytes: int)
    requires Mirrors(c, g) && G.Valid(g) && !FrameGuard(c, G.Consume(s, bytes))
    ensures Apply(c, G.Consume(s, bytes)).status == Shared(G.Apply(g, G.Consume(s, bytes)).status)
    ensures Mirrors(Apply(c, G.Consume(s, bytes)).state, G.Apply(g, G.Consume(s, bytes)).state)
  {
  }

  lemma SameOnRelease(c: Client, g: G.Inbound, s: int, bytes: int)
    requires Mirrors(c, g) && G.Valid(g) && !FrameGuard(c, G.Release(s, bytes))
    requires s in c.streams ==> c.streams[s].consumedBytes <= c.consumedBytes
    ensures Apply(c, G.Release(s, bytes)).status == Shared(G.Apply(g, G.Release(s, bytes)).status)
    ensures Mirrors(Apply(c, G.Release(s, bytes)).state, G.Apply(g, G.Release(s, bytes)).state)
  {
    G.ApplyKeepsValid(g, G.Release(s, bytes));
  }

  lemma SameOnClosing(c: Client, g: G.Inbound, op: G.Op)
    requires Mirrors(c, g) && G.Valid(g) && Counted(c)
    requires op.CloseStream? || op.Retire?
    ensures Apply(c, op).status == Shared(G.Apply(g, op).status)
    ensures Mirrors(Apply(c, op).state, G.Apply(g, op).state)
  {
    G.ApplyKeepsValid(g, op);
    var s := op.streamId;
    if s in c.streams {
      SumBoundsEachKey(Consumed(c.streams), s);
      assert LateAllowance(c, s) == G.LateAllowance(g, s);
    }
  }

  /** Where no client-only guard fires, both ends answer alike and stay in step. */
  lemma SameAnswer(c: Client, g: G.Inbound, op: G.Op)
    requires Mirrors(c, g) && G.Valid(g) && Counted(c)
    requires !FrameGuard(c, op)
    ensures Apply(c, op).status == Shared(G.Apply(g, op).status)
    ensures Mirrors(Apply(c, op).state, G.Apply(g, op).state)
  {
    match op {
      case Open(_, _) =>
      case Consume(s, bytes) => SameOnConsume(c, g, s, bytes);
      case Release(s, bytes) =>
        if s in c.streams {
          HeldIsCounted(c, s);
        }
        SameOnRelease(c, g, s, bytes);
      case CloseStream(_) => SameOnClosing(c, g, op);
      case Retire(_) => SameOnClosing(c, g, op);
      case ConsumeRetired(_, _) =>
    }
  }

  /** Where one fires, the client alone refuses, with its window untouched; so the guard is exactly the difference. */
  lemma GuardRefuses(c: Client, g: G.Inbound, op: G.Op)
    requires Mirrors(c, g) && G.Valid(g) && Counted(c)
    requires FrameGuard(c, op)
    ensures !Apply(c, op).status.Shared? && Apply(c, op).state == c
    ensures !op.Open? ==> G.Apply(g, op).status == G.Accepted
  {
    G.ApplyKeepsValid(g, op);
  }

  // ------------------------------------------------------------ whole runs

  function Run(c: Client, ops: seq<G.Op>): Client
    decreases |ops|
  {
    if ops == [] then c else Run(Apply(c, ops[0]).state, ops[1..])
  }

  function ClientAnswers(c: Client, ops: seq<G.Op>): seq<Status>
    decreases |ops|
  {
    if ops == [] then [] else [Apply(c, ops[0]).status] + ClientAnswers(Apply(c, ops[0]).state, ops[1..])
  }

  function GatewayAnswers(g: G.Inbound, ops: seq<G.Op>): seq<Status>
    decreases |ops|
  {
    if ops == [] then []
    else [Shared(G.Apply(g, ops[0]).status)] + GatewayAnswers(G.Apply(g, ops[0]).state, ops[1..])
  }

  /** No client-only guard fires at any step of the run. */
  predicate GuardFree(c: Client, ops: seq<G.Op>)
    decreases |ops|
  {
    ops == [] || (!FrameGuard(c, ops[0]) && GuardFree(Apply(c, ops[0]).state, ops[1..]))
  }

  /** The two receivers answer a whole run alike if and only if no guard fires in it, and then stay in step. */
  lemma {:induction false} ReceiversAgreeExactlyWhenGuardFree(c: Client, g: G.Inbound, ops: seq<G.Op>)
    requires Mirrors(c, g) && G.Valid(g) && Counted(c)
    ensures ClientAnswers(c, ops) == GatewayAnswers(g, ops) <==> GuardFree(c, ops)
    ensures GuardFree(c, ops) ==> Mirrors(Run(c, ops), G.Run(g, ops)) && Counted(Run(c, ops))
    decreases |ops|
  {
    if ops != [] {
      var nextC, nextG := Apply(c, ops[0]).state, G.Apply(g, ops[0]).state;
      if FrameGuard(c, ops[0]) {
        GuardRefuses(c, g, ops[0]);
        assert ClientAnswers(c, ops)[0] != GatewayAnswers(g, ops)[0];
      } else {
        SameAnswer(c, g, ops[0]);
        ApplyKeepsCounted(c, ops[0]);
        G.ApplyKeepsValid(g, ops[0]);
        ReceiversAgreeExactlyWhenGuardFree(nextC, nextG, ops[1..]);
        assert ClientAnswers(c, ops)[1..] == ClientAnswers(nextC, ops[1..]);
        assert GatewayAnswers(g, ops)[1..] == GatewayAnswers(nextG, ops[1..]);
      }
    }
  }

  // ------------------------------------------- releases that match frames

  /** Bytes of the frames consumed on each open stream and not yet released. */
  type Ledger = map<int, seq<nat>>

  function Total(frames: seq<nat>): nat {
    if frames == [] then 0 else frames[0] + Total(frames[1..])
  }

  function WithoutFrame(frames: seq<nat>, bytes: nat): seq<nat> {
    if frames == [] then []
    else if frames[0] == bytes then frames[1..]
    else [frames[0]] + WithoutFrame(frames[1..], bytes)
  }

  lemma {:induction false} TotalOfAppend(frames: seq<nat>, last: nat)
    ensures Total(frames + [last]) == Total(frames) + last
  {
    if frames != [] {
      assert (frames + [last])[1..] == frames[1..] + [last];
      TotalOfAppend(frames[1..], last);
    }
  }

  lemma {:induction false} TotalWithout(frames: seq<nat>, bytes: nat)
    requires bytes in frames
    ensures Total(WithoutFrame(frames, bytes)) + bytes == Total(frames)
    ensures |WithoutFrame(frames, bytes)| + 1 == |frames|
  {
    if frames[0] != bytes {
      assert bytes in frames[1..];
      TotalWithout(frames[1..], bytes);
      assert ([frames[0]] + WithoutFrame(frames[1..], bytes))[1..] == WithoutFrame(frames[1..], bytes);
    }
  }

  function Noted(ledger: Ledger, c: Client, op: G.Op): Ledger {
    match op
    case Open(s, _) => if Apply(c, op).state != c then ledger[s := []] else ledger
    case Consume(s, bytes) =>
      if s in ledger && bytes > 0 && Apply(c, op).status == Shared(G.Accepted) then ledger[s := ledger[s] + [bytes]]
      else ledger
    case Release(s, bytes) =>
      if s in ledger && bytes > 0 && Apply(c, op).status == Shared(G.Accepted)
      then ledger[s := WithoutFrame(ledger[s], bytes)]
      else ledger
    case CloseStream(s) => ledger - {s}
    case Retire(s) => ledger - {s}
    case ConsumeRetired(_, _) => ledger
  }

  ghost predicate Matches(ledger: Ledger, c: Client) {
    && ledger.Keys == c.streams.Keys
    && (forall s | s in ledger ::
          c.streams[s].pendingFrames == |ledger[s]| && c.streams[s].consumedBytes == Total(ledger[s]))
  }

  /** A release that is within what was consumed gives back one whole frame, in any order; ids fit the wire. */
  predicate Disciplined(ledger: Ledger, op: G.Op) {
    match op
    case Open(s, _) => s <= MAX_STREAM_ID
    case Release(s, bytes) => s in ledger && 0 < bytes <= Total(ledger[s]) ==> bytes in ledger[s]
    case _ => true
  }

  lemma NotedMatches(ledger: Ledger, c: Client, op: G.Op)
    requires Matches(ledger, c) && Disciplined(ledger, op)
    ensures Matches(Noted(ledger, c, op), Apply(c, op).state)
    ensures op.Release? ==> !FrameGuard(c, op)
  {
    var s := op.streamId;
    if op.Consume? && s in ledger && op.bytes > 0 {
      TotalOfAppend(ledger[s], op.bytes);
    } else if op.Release? && s in ledger && 0 < op.bytes <= Total(ledger[s]) {
      TotalWithout(ledger[s], op.bytes);
    }
  }

  /** Every operation of the sequence is disciplined, and no acceptable DATA meets a full frame queue. */
  ghost predicate Fits(c: Client, ledger: Ledger, ops: seq<G.Op>)
    decreases |ops|
  {
    ops == [] ||
    (&& Disciplined(ledger, ops[0])
     && (ops[0].Consume? ==> !FrameGuard(c, ops[0]))
     && Fits(Apply(c, ops[0]).state, Noted(ledger, c, ops[0]), ops[1..]))
  }

  lemma {:induction false} FitsIsGuardFree(c: Client, ledger: Ledger, ops: seq<G.Op>)
    requires Matches(ledger, c) && Fits(c, ledger, ops)
    ensures GuardFree(c, ops)
    decreases |ops|
  {
    if ops != [] {
      NotedMatches(ledger, c, ops[0]);
      FitsIsGuardFree(Apply(c, ops[0]).state, Noted(ledger, c, ops[0]), ops[1..]);
    }
  }

  /** So while releases match consumed frames, both answer alike and record the same retirement allowances. */
  lemma ReceiversAgree(c: Client, g: G.Inbound, ledger: Ledger, ops: seq<G.Op>)
    requires Mirrors(c, g) && G.Valid(g) && Counted(c) && Matches(ledger, c)
    requires Fits(c, ledger, ops)
    ensures ClientAnswers(c, ops) == GatewayAnswers(g, ops)
    ensures Mirrors(Run(c, ops), G.Run(g, ops))
    ensures Run(c, ops).retired == G.Run(g, ops).retired
    ensures Counted(Run(c, ops))
  {
    FitsIsGuardFree(c, ledger, ops);
    ReceiversAgreeExactlyWhenGuardFree(c, g, ops);
  }

  /** From two new receivers, the answers and the allowances agree exactly while no guard fires. */
  lemma FreshReceiversAgree(limit: nat, frames: nat, ops: seq<G.Op>)
    ensures var c, g := FreshClient(limit, frames), G.FreshInbound(limit, frames);
            && (ClientAnswers(c, ops) == GatewayAnswers(g, ops) <==> GuardFree(c, ops))
            && (GuardFree(c, ops) ==> Run(c, ops).retired == G.Run(g, ops).retired)
            && (Fits(c, map[], ops) ==> GuardFree(c, ops))
  {
    G.FreshIsValid(limit, frames);
    var c, g := FreshClient(limit, frames), G.FreshInbound(limit, frames);
    assert Consumed(map[]) == map[] && Frames(map[]) == map[];
    ReceiversAgreeExactlyWhenGuardFree(c, g, ops);
    if Fits(c, map[], ops) {
      FitsIsGuardFree(c, map[], ops);
    }
  }

  /** Releasing one frame in two parts is where the encodings part: the client counts frames. */
  lemma SplitReleaseDiffers()
    ensures var ops := [G.Open(1, 10), G.Consume(1, 10), G.Release(1, 4), G.Release(1, 6)];
            && GatewayAnswers(G.FreshInbound(10, 8), ops)[3] == Shared(G.Accepted)
            && ClientAnswers(FreshClient(10, 8), ops)[3] == NoPendingFrame
  {
    var g0, c0 := G.FreshInbound(10, 8), FreshClient(10, 8);
    var g1, c1 := G.Apply(g0, G.Open(1, 10)).state, Apply(c0, G.Open(1, 10)).state;
    var g2, c2 := G.Apply(g1, G.Consume(1, 10)).state, Apply(c1, G.Consume(1, 10)).state;
    var g3, c3 := G.Apply(g2, G.Release(1, 4)).state, Apply(c2, G.Release(1, 4)).state;
    var ops := [G.Open(1, 10), G.Consume(1, 10), G.Release(1, 4), G.Release(1, 6)];
    assert ops[1..][1..][1..][0] == G.Release(1, 6);
    assert ops[1..][1..][0] == G.Release(1, 4) && ops[1..][0] == G.Consume(1, 10);
    assert c3.streams[1].pendingFrames == 0 && g3.streams[1].outstanding == 6;
    assert GatewayAnswers(g3, ops[1..][1..][1..])[0] == Shared(G.Accepted);
    assert ClientAnswers(c3, ops[1..][1..][1..])[0] == NoPendingFrame;
    assert GatewayAnswers(g2, ops[1..][1..])[1] == Shared(G.Accepted);
    assert ClientAnswers(c2, ops[1..][1..])[1] == NoPendingFrame;
    assert GatewayAnswers(g1, ops[1..])[2] == Shared(G.Accepted);
    assert ClientAnswers(c1, ops[1..])[2] == NoPendingFrame;
  }

  // -------------------------------------------------------- as it is kept

  class InboundFlowWindow {
    const connectionLimit: nat
    const maxPendingFrames: nat
    var streams: map<int, Stream>
    var connectionConsumedBytes: int
    var pendingFrames: int
    const retiredData: R.RetiredDataBudget

    ghost predicate NonNegative()
      reads this
    {
      connectionConsumedBytes >= 0 && pendingFrames >= 0
    }

    ghost function State(): Client
      requires NonNegative()
      reads this, retiredData
    {
      Client(connectionLimit, maxPendingFrames, streams, connectionConsumedBytes, pendingFrames, retiredData.State())
    }

    ghost predicate Valid()
      reads this, retiredData
    {
      && NonNegative() && Counted(State())
      && (forall s | s in streams :: s > 0)
    }

    constructor (limit: nat, frames: nat)
      requires limit > 0 && frames > 0
      ensures Valid() && State() == FreshClient(limit, frames)
      ensures fresh(retiredData)
    {
      connectionLimit, maxPendingFrames := limit, frames;
      streams, connectionConsumedBytes, pendingFrames := map[], 0, 0;
      retiredData := new R.RetiredDataBudget(limit, frames);
      new;
      assert Consumed(map[]) == map[] && Frames(map[]) == map[];
    }

    method OpenStream(streamId: int, streamLimit: int) returns (status: Status)
      requires Valid()
      modifies this
      ensures Valid() && Effect(status, State()) == Apply(old(State()), G.Open(streamId, streamLimit))
    {
      ApplyKeepsCounted(State(), G.Open(streamId, streamLimit));
      if streamId > MAX_STREAM_ID { return NotUint32; }
      if streamId <= 0 || streamLimit <= 0 { return Shared(G.NotPositive); }
      if streamId in streams { return Shared(G.StreamExists); }
      streams := streams[streamId := Stream(streamLimit, 0, 0)];
      return Shared(G.Accepted);
    }

    method ConsumeData(streamId: int, bytes: int) returns (status: Status)
      requires Valid()
      modifies this
      ensures Valid() && Effect(status, State()) == Apply(old(State()), G.Consume(streamId, bytes))
    {
      if bytes <= 0 { return Shared(G.NotPositive); }
      if streamId !in streams { return Shared(G.StreamMissing); }
      var stream := streams[streamId];
      if stream.consumedBytes + bytes > stream.limit { return Shared(G.ExceedsStream); }
      if connectionConsumedBytes + bytes > connectionLimit { return Shared(G.ExceedsConnection); }
      if pendingFrames >= maxPendingFrames { return TooManyFrames; }
      TakenIsCounted(State(), streamId, bytes);
      streams := streams[streamId := Stream(stream.limit, stream.consumedBytes + bytes, stream.pendingFrames + 1)];
      connectionConsumedBytes := connectionConsumedBytes + bytes;
      pendingFrames := pendingFrames + 1;
      return Shared(G.Accepted);
    }

    method ReleaseData(streamId: int, bytes: int) returns (status: Status)
      requires Valid()
      modifies this
      ensures Valid() && Effect(status, State()) == Apply(old(State()), G.Release(streamId, bytes))
    {
      if bytes <= 0 { return Shared(G.NotPositive); }
      if streamId !in streams { return Shared(G.StreamMissing); }
      var stream := streams[streamId];
      if stream.consumedBytes < bytes || stream.pendingFrames == 0 {
        return if stream.consumedBytes < bytes then Shared(G.ReleaseExceeds) else NoPendingFrame;
      }
      GivenIsCounted(State(), streamId, bytes);
      streams := streams[streamId := Stream(stream.limit, stream.consumedBytes - bytes, stream.pendingFrames - 1)];
      connectionConsumedBytes := connectionConsumedBytes - bytes;
      pendingFrames := pendingFrames - 1;
      return Shared(G.Accepted);
    }

    method Shutdown(streamId: int)
      requires Valid()
      modifies this
      ensures Valid() && State() == Apply(old(State()), G.CloseStream(streamId)).state
    {
      ApplyKeepsCounted(State(), G.CloseStream(streamId));
      if streamId !in streams { return; }
      var stream := streams[streamId];
      HeldIsCounted(State(), streamId);
      connectionConsumedBytes := connectionConsumedBytes - stream.consumedBytes;
      pendingFrames := pendingFrames - stream.pendingFrames;
      streams := streams - {streamId};
    }

    method RetireStream(streamId: int)
      requires Valid()
      modifies this, retiredData
      ensures Valid() && State() == Apply(old(State()), G.Retire(streamId)).state
    {
      if streamId !in streams { return; }
      var stream := streams[streamId];
      var _ := retiredData.AllowLate(streamId,
        R.Smaller(stream.limit - stream.consumedBytes, connectionLimit - connectionConsumedBytes));
      Shutdown(streamId);
    }

    method ConsumeRetiredData(streamId: int, bytes: int) returns (status: Status)
      requires Valid()
      modifies this, retiredData
      ensures Valid() && Effect(status, State()) == Apply(old(State()), G.ConsumeRetired(streamId, bytes))
    {
      var verdict := retiredData.ConsumeLate(streamId, bytes);
      return Shared(if verdict == R.Accepted then G.Accepted else G.LateRefused(verdict));
    }
  }
}
