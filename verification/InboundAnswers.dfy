/** What the receive windows and the late-DATA budget answer, condition by condition, and where the credit is then. */
module InboundAnswers {
  import G = GatewayInbound
  import C = ClientInbound
  import R = RetiredBudget

  ghost predicate Knows(g: G.Inbound, op: G.Op) {
    op.streamId in g.streams
  }

  /** Which operations on the gateway's window are refused, and for what. */
  lemma GatewayAnswers(g: G.Inbound, op: G.Op)
    requires G.Valid(g) && !op.ConsumeRetired?
    ensures var e, sized := G.Apply(g, op), op.Consume? || op.Release?;
            && (e.status.NotPositive? <==>
                  (op.Open? && (op.streamId <= 0 || op.bytes <= 0)) || (sized && op.bytes <= 0))
            && (e.status.StreamExists? <==> op.Open? && op.streamId > 0 && op.bytes > 0 && Knows(g, op))
            && (e.status.StreamMissing? <==> sized && op.bytes > 0 && !Knows(g, op))
            && (e.status.ExceedsStream? <==>
                  op.Consume? && op.bytes > 0 && Knows(g, op) && op.bytes > g.streams[op.streamId].available)
            && (e.status.ExceedsConnection? <==>
                  && op.Consume? && op.bytes > 0 && Knows(g, op) && op.bytes <= g.streams[op.streamId].available
                  && op.bytes > g.connection)
            && (e.status.ReleaseExceeds? <==>
                  op.Release? && op.bytes > 0 && Knows(g, op) && op.bytes > g.streams[op.streamId].outstanding)
            && !e.status.AboveMaximum? && !e.status.LateRefused?
            && (!e.status.Accepted? ==> e.state == g)
  {
    G.ApplyKeepsValid(g, op);
  }

  /** Bytes that an accepted operation moves from available to outstanding on its stream. */
  ghost function Moved(op: G.Op, s: int): int {
    if s != op.streamId then 0 else if op.Consume? then op.bytes else if op.Release? then -op.bytes else 0
  }

  /** Where the receiver's credit is after an operation that was accepted. */
  lemma GatewayCredit(g: G.Inbound, op: G.Op)
    requires G.Valid(g) && !op.ConsumeRetired? && G.Apply(g, op).status.Accepted?
    ensures var next := G.Apply(g, op).state;
            var ends := (op.CloseStream? || op.Retire?) && Knows(g, op);
            && next.initial == g.initial && (!op.Retire? ==> next.retired == g.retired)
            && next.streams.Keys
               == (if op.Open? then g.streams.Keys + {op.streamId} else if ends then g.streams.Keys - {op.streamId}
                   else g.streams.Keys)
            && (op.Open? ==> next.streams[op.streamId] == G.Credit(op.bytes, op.bytes, 0))
            && (forall s | s in next.streams && !(op.Open? && s == op.streamId) ::
                  && next.streams[s].initial == g.streams[s].initial
                  && next.streams[s].available == g.streams[s].available - Moved(op, s)
                  && next.streams[s].outstanding == g.streams[s].outstanding + Moved(op, s))
            && next.connection
               == g.connection - Moved(op, op.streamId) + if ends then g.streams[op.streamId].outstanding else 0
  {
    G.ApplyKeepsValid(g, op);
  }

  // -------------------------------------------------------------- late DATA

  /** A late frame is accepted exactly within its stream's allowance and both budgets, and then spends them. */
  lemma LateAnswers(b: R.Budget, s: int, bytes: int)
    ensures var verdict, next := R.Refused(b, s, bytes), R.Consume(b, s, bytes);
            var fits := bytes <= R.Allowed(b.entries, s) && bytes <= b.remainingBytes;
            && (verdict.NotPositive? <==> s <= 0 || bytes <= 0)
            && (verdict.FramesExhausted? <==> s > 0 && bytes > 0 && b.remainingFrames == 0)
            && (verdict.BytesExhausted? <==> s > 0 && bytes > 0 && b.remainingFrames > 0 && !fits)
            && (verdict.Accepted? <==> s > 0 && bytes > 0 && b.remainingFrames > 0 && fits)
            && (!verdict.Accepted? ==> next == b)
            && (verdict.Accepted? ==>
                  && next.remainingFrames == b.remainingFrames - 1 && next.remainingBytes == b.remainingBytes - bytes
                  && (next.remainingFrames == 0 || next.remainingBytes == 0 ==> next.entries == []))
  {
  }

  /**
   An allowance is recorded exactly for a new stream, of some bytes, while both
   budgets last; when the table is full it takes the place of the oldest entry.
   */
  lemma AllowanceAnswers(b: R.Budget, s: int, bytes: nat)
    ensures var next := R.Allow(b, s, bytes);
            var records := bytes > 0 && b.remainingFrames > 0 && b.remainingBytes > 0 && !R.Tracked(b.entries, s);
            var full := |b.entries| >= b.maximumFrames && b.entries != [];
            && next.remainingFrames == b.remainingFrames && next.remainingBytes == b.remainingBytes
            && (!records ==> next == b)
            && (records ==>
                  && next.entries != [] && next.entries[|next.entries| - 1].streamId == s
                  && next.entries[|next.entries| - 1].bytes
                     == (if bytes < b.maximumBytes then bytes else b.maximumBytes)
                  && next.entries[..|next.entries| - 1] == if full then b.entries[1..] else b.entries)
  {
  }

  // ------------------------------------------------------------- the client

  /** What the client alone refuses: an id that is no uint32, a full frame queue, and a release without a frame. */
  lemma ClientAnswers(c: C.Client, op: G.Op)
    ensures var status := C.Apply(c, op).status;
            && (status.NotUint32? <==> op.Open? && op.streamId > 0xffff_ffff)
            && (status.TooManyFrames? <==>
                  && op.Consume? && op.bytes > 0 && op.streamId in c.streams
                  && c.streams[op.streamId].consumedBytes + op.bytes <= c.streams[op.streamId].limit
                  && c.consumedBytes + op.bytes <= c.limit && c.pendingFrames >= c.maxPendingFrames)
            && (status.NoPendingFrame? <==>
                  && op.Release? && op.bytes > 0 && op.streamId in c.streams
                  && op.bytes <= c.streams[op.streamId].consumedBytes && c.streams[op.streamId].pendingFrames == 0)
            && (!status.Shared? || (!status.status.Accepted? && !op.ConsumeRetired?) ==> C.Apply(c, op).state == c)
  {
  }

  /** An accepted frame counts once on its stream and on the connection, and so does its release. */
  lemma ClientCounts(c: C.Client, op: G.Op)
    requires C.Counted(c) && (op.Consume? || op.Release?) && C.Apply(c, op).status == C.Shared(G.Accepted)
    ensures var next, sign := C.Apply(c, op).state, if op.Consume? then 1 else -1;
            && op.streamId in c.streams && next.streams.Keys == c.streams.Keys
            && next.consumedBytes == c.consumedBytes + sign * op.bytes && next.pendingFrames == c.pendingFrames + sign
            && (forall s | s in c.streams && s != op.streamId :: next.streams[s] == c.streams[s])
            && var was, now := c.streams[op.streamId], next.streams[op.streamId];
               && now.limit == was.limit && now.consumedBytes == was.consumedBytes + sign * op.bytes
               && now.pendingFrames == was.pendingFrames + sign
  {
    if op.Release? {
      C.GivenIsCounted(c, op.streamId, op.bytes);
    }
  }
}
