/**
 Late DATA on streams this end has already reset: a byte and frame budget for the
 whole connection, and an allowance per stream, kept in insertion order.
 */
module RetiredBudget {

  datatype Allowance = Allowance(streamId: int, bytes: nat)

  datatype Budget = Budget(
    maximumBytes: nat,
    maximumFrames: nat,
    remainingBytes: nat,
    remainingFrames: nat,
    entries: seq<Allowance>)

  datatype Verdict = Accepted | NotPositive | FramesExhausted | BytesExhausted

  function FreshBudget(maximumBytes: nat, maximumFrames: nat): Budget {
    Budget(maximumBytes, maximumFrames, maximumBytes, maximumFrames, [])
  }

  predicate Tracked(entries: seq<Allowance>, streamId: int) {
    exists i :: 0 <= i < |entries| && entries[i].streamId == streamId
  }

  /** The bytes still allowed for a stream; none when it is not tracked. */
  function Allowed(entries: seq<Allowance>, streamId: int): nat {
    if entries == [] then 0
    else if entries[0].streamId == streamId then entries[0].bytes
    else Allowed(entries[1..], streamId)
  }

  function Dropped(entries: seq<Allowance>, streamId: int): seq<Allowance> {
    if entries == [] then []
    else if entries[0].streamId == streamId then entries[1..]
    else [entries[0]] + Dropped(entries[1..], streamId)
  }

  function Smaller(a: nat, b: nat): nat {
    if a <= b then a else b
  }

  /** What is left after the oldest entry made room, if there was none. */
  function Evicted(b: Budget): seq<Allowance> {
    if |b.entries| >= b.maximumFrames && b.entries != [] then b.entries[1..] else b.entries
  }

  function Allow(b: Budget, streamId: int, bytes: nat): Budget {
    if bytes == 0 || b.remainingFrames == 0 || b.remainingBytes == 0 || Tracked(b.entries, streamId) then b
    else b.(entries := Evicted(b) + [Allowance(streamId, Smaller(bytes, b.maximumBytes))])
  }

  function Refused(b: Budget, streamId: int, bytes: int): Verdict {
    if streamId <= 0 || bytes <= 0 then NotPositive
    else if b.remainingFrames == 0 then FramesExhausted
    else if bytes > Allowed(b.entries, streamId) || bytes > b.remainingBytes then BytesExhausted
    else Accepted
  }

  /** The budget after an accepted late frame. */
  function Spent(b: Budget, streamId: int, bytes: nat): Budget
    requires Refused(b, streamId, bytes) == Accepted
  {
    var left := Allowed(b.entries, streamId) - bytes;
    var others := Dropped(b.entries, streamId);
    var frames, total := b.remainingFrames - 1, b.remainingBytes - bytes;
    var entries :=
      if frames == 0 || total == 0 then []
      else if left > 0 then others + [Allowance(streamId, left)]
      else others;
    b.(remainingFrames := frames, remainingBytes := total, entries := entries)
  }

  function Consume(b: Budget, streamId: int, bytes: int): Budget {
    if Refused(b, streamId, bytes) == Accepted then Spent(b, streamId, bytes) else b
  }

  ghost predicate Distinct(entries: seq<Allowance>) {
    forall i, j | 0 <= i < j < |entries| :: entries[i].streamId != entries[j].streamId
  }

  ghost predicate WellFormed(b: Budget) {
    && b.remainingBytes <= b.maximumBytes
    && b.remainingFrames <= b.maximumFrames
    && Distinct(b.entries)
    && |b.entries| <= b.maximumFrames
    && (b.remainingFrames == 0 || b.remainingBytes == 0 ==> b.entries == [])
    && EachWithin(b.entries, b.maximumBytes)
  }

  ghost predicate EachWithin(entries: seq<Allowance>, maximum: nat) {
    forall i | 0 <= i < |entries| :: 0 < entries[i].bytes <= maximum
  }

  // ------------------------------------------------------- ordered entries

  lemma {:induction false} AllowedAt(entries: seq<Allowance>, k: nat)
    requires Distinct(entries) && k < |entries|
    ensures Allowed(entries, entries[k].streamId) == entries[k].bytes
  {
    if k > 0 {
      AllowedAt(entries[1..], k - 1);
    }
  }

  lemma {:induction false} AllowedNowhere(entries: seq<Allowance>, streamId: int)
    requires !Tracked(entries, streamId)
    ensures Allowed(entries, streamId) == 0
    ensures Dropped(entries, streamId) == entries
  {
    if entries != [] {
      assert entries[0].streamId != streamId;
      forall i | 0 <= i < |entries[1..]| ensures entries[1..][i].streamId != streamId {
        assert entries[1..][i] == entries[i + 1];
      }
      AllowedNowhere(entries[1..], streamId);
    }
  }

  lemma {:induction false} AllowedAfterAppend(entries: seq<Allowance>, last: Allowance, streamId: int)
    requires !Tracked(entries, last.streamId)
    ensures Allowed(entries + [last], streamId)
            == if streamId == last.streamId then last.bytes else Allowed(entries, streamId)
  {
    if entries != [] {
      assert entries[0].streamId != last.streamId;
      assert (entries + [last])[1..] == entries[1..] + [last];
      forall i | 0 <= i < |entries[1..]| ensures entries[1..][i].streamId != last.streamId {
        assert entries[1..][i] == entries[i + 1];
      }
      AllowedAfterAppend(entries[1..], last, streamId);
    }
  }

  lemma {:induction false} DroppedEntries(entries: seq<Allowance>, streamId: int)
    requires Distinct(entries)
    ensures Distinct(Dropped(entries, streamId))
    ensures !Tracked(Dropped(entries, streamId), streamId)
    ensures |Dropped(entries, streamId)| <= |entries|
    ensures Tracked(entries, streamId) ==> |Dropped(entries, streamId)| < |entries|
    ensures forall a | a in Dropped(entries, streamId) :: a in entries
  {
    if entries != [] {
      var tail := entries[1..];
      DroppedEntries(tail, streamId);
      if entries[0].streamId == streamId {
        forall i | 0 <= i < |tail| ensures tail[i].streamId != streamId {
          assert tail[i] == entries[i + 1];
        }
      } else {
        var rest := Dropped(tail, streamId);
        forall i | 0 <= i < |rest| ensures rest[i].streamId != entries[0].streamId {
          assert rest[i] in tail;
        }
        if Tracked(entries, streamId) {
          var k :| 0 <= k < |entries| && entries[k].streamId == streamId;
          assert tail[k - 1].streamId == streamId;
        }
      }
    }
  }

  lemma {:induction false} AllowedAfterDrop(entries: seq<Allowance>, streamId: int, other: int)
    requires Distinct(entries)
    ensures Allowed(Dropped(entries, streamId), other) == if other == streamId then 0 else Allowed(entries, other)
  {
    if entries != [] {
      if entries[0].streamId == streamId {
        var tail := entries[1..];
        if other == streamId {
          forall i | 0 <= i < |tail| ensures tail[i].streamId != streamId {
            assert tail[i] == entries[i + 1];
          }
          AllowedNowhere(tail, streamId);
        }
      } else {
        AllowedAfterDrop(entries[1..], streamId, other);
        var dropped := Dropped(entries, streamId);
        assert dropped[0] == entries[0] && dropped[1..] == Dropped(entries[1..], streamId);
      }
    }
  }

  lemma AllowedMeansTracked(entries: seq<Allowance>, streamId: int)
    requires Allowed(entries, streamId) > 0
    ensures Tracked(entries, streamId)
  {
    if !Tracked(entries, streamId) {
      AllowedNowhere(entries, streamId);
    }
  }

  // ---------------------------------------------------------- what is kept

  lemma DistinctAppend(entries: seq<Allowance>, last: Allowance)
    requires Distinct(entries) && !Tracked(entries, last.streamId)
    ensures Distinct(entries + [last])
  {
  }

  lemma AllowKeepsWellFormed(b: Budget, streamId: int, bytes: nat)
    requires WellFormed(b)
    ensures WellFormed(Allow(b, streamId, bytes))
  {
    var kept := Evicted(b);
    if Allow(b, streamId, bytes) != b {
      forall i | 0 <= i < |kept| ensures kept[i].streamId != streamId {
        assert kept[i] in b.entries;
      }
    }
  }

  /** A new allowance is recorded whole unless it exceeds the connection's own maximum. */
  lemma AllowRecords(b: Budget, streamId: int, bytes: nat)
    requires WellFormed(b) && b.remainingFrames > 0 && b.remainingBytes > 0
    requires !Tracked(b.entries, streamId) && bytes <= b.maximumBytes
    ensures Allowed(Allow(b, streamId, bytes).entries, streamId) == bytes
    ensures forall other | other != streamId && Tracked(Evicted(b), other) ::
              Allowed(Allow(b, streamId, bytes).entries, other) == Allowed(b.entries, other)
  {
    if bytes == 0 {
      AllowedNowhere(b.entries, streamId);
    } else {
      var kept := Evicted(b);
      forall i | 0 <= i < |kept| ensures kept[i].streamId != streamId {
        assert kept[i] in b.entries;
      }
      AllowedAfterAppend(kept, Allowance(streamId, bytes), streamId);
      forall other | other != streamId && Tracked(kept, other)
        ensures Allowed(Allow(b, streamId, bytes).entries, other) == Allowed(b.entries, other)
      {
        AllowedAfterAppend(kept, Allowance(streamId, bytes), other);
        var k :| 0 <= k < |kept| && kept[k].streamId == other;
        AllowedAt(kept, k);
        AllowedAt(b.entries, if kept == b.entries then k else k + 1);
      }
    }
  }

  lemma DroppedStaysWithin(entries: seq<Allowance>, maximum: nat, streamId: int)
    requires Distinct(entries) && EachWithin(entries, maximum)
    ensures EachWithin(Dropped(entries, streamId), maximum)
  {
    DroppedEntries(entries, streamId);
    var others := Dropped(entries, streamId);
    forall i | 0 <= i < |others| ensures 0 < others[i].bytes <= maximum {
      assert others[i] in entries;
    }
  }

  lemma AppendStaysWithin(entries: seq<Allowance>, last: Allowance, maximum: nat)
    requires EachWithin(entries, maximum) && 0 < last.bytes <= maximum
    ensures EachWithin(entries + [last], maximum)
  {
  }

  /** A tracked stream's allowance is within the maximum, and dropping it makes room for one. */
  lemma TrackedAllowance(b: Budget, streamId: int)
    requires WellFormed(b) && Tracked(b.entries, streamId)
    ensures Allowed(b.entries, streamId) <= b.maximumBytes
    ensures |Dropped(b.entries, streamId)| < |b.entries|
  {
    DroppedEntries(b.entries, streamId);
    var k :| 0 <= k < |b.entries| && b.entries[k].streamId == streamId;
    AllowedAt(b.entries, k);
  }

  lemma SpentKeepsWellFormed(b: Budget, streamId: int, bytes: nat)
    requires WellFormed(b) && Refused(b, streamId, bytes) == Accepted
    ensures WellFormed(Spent(b, streamId, bytes))
  {
    AllowedMeansTracked(b.entries, streamId);
    TrackedAllowance(b, streamId);
    SpentEntries(b.entries, b.maximumBytes, streamId, Allowed(b.entries, streamId) - bytes);
  }

  /** The entries that remain, with what is left of the stream's own at the end. */
  lemma SpentEntries(entries: seq<Allowance>, maximum: nat, streamId: int, left: nat)
    requires Distinct(entries) && EachWithin(entries, maximum) && left <= maximum
    ensures Distinct(Dropped(entries, streamId)) && EachWithin(Dropped(entries, streamId), maximum)
    ensures left > 0 ==>
              && Distinct(Dropped(entries, streamId) + [Allowance(streamId, left)])
              && EachWithin(Dropped(entries, streamId) + [Allowance(streamId, left)], maximum)
  {
    var others := Dropped(entries, streamId);
    DroppedEntries(entries, streamId);
    DroppedStaysWithin(entries, maximum, streamId);
    DistinctAppend(others, Allowance(streamId, left));
    if left > 0 {
      AppendStaysWithin(others, Allowance(streamId, left), maximum);
    }
  }

  /** An accepted late frame comes off its own stream's allowance and off nobody else's. */
  lemma SpentAllowance(b: Budget, streamId: int, bytes: nat, other: int)
    requires WellFormed(b) && Refused(b, streamId, bytes) == Accepted
    requires Spent(b, streamId, bytes).remainingFrames > 0 && Spent(b, streamId, bytes).remainingBytes > 0
    ensures Allowed(Spent(b, streamId, bytes).entries, other)
            == Allowed(b.entries, other) - (if other == streamId then bytes else 0)
  {
    var others := Dropped(b.entries, streamId);
    DroppedEntries(b.entries, streamId);
    AllowedAfterDrop(b.entries, streamId, other);
    var left := Allowed(b.entries, streamId) - bytes;
    if left > 0 {
      AllowedAfterAppend(others, Allowance(streamId, left), other);
    }
  }

  // ------------------------------------------------------------ whole runs

  datatype BudgetOp = Permit(streamId: int, bytes: nat) | Late(streamId: int, size: int)

  function Perform(b: Budget, op: BudgetOp): Budget {
    match op
    case Permit(streamId, bytes) => Allow(b, streamId, bytes)
    case Late(streamId, size) => Consume(b, streamId, size)
  }

  function Run(b: Budget, ops: seq<BudgetOp>): Budget
    decreases |ops|
  {
    if ops == [] then b else Run(Perform(b, ops[0]), ops[1..])
  }

  /** Bytes of late DATA accepted while `ops` run from `b`. */
  function AcceptedBytes(b: Budget, ops: seq<BudgetOp>): nat
    decreases |ops|
  {
    if ops == [] then 0
    else (if ops[0].Late? && Refused(b, ops[0].streamId, ops[0].size) == Accepted then ops[0].size else 0)
         + AcceptedBytes(Perform(b, ops[0]), ops[1..])
  }

  function AcceptedFrames(b: Budget, ops: seq<BudgetOp>): nat
    decreases |ops|
  {
    if ops == [] then 0
    else (if ops[0].Late? && Refused(b, ops[0].streamId, ops[0].size) == Accepted then 1 else 0)
         + AcceptedFrames(Perform(b, ops[0]), ops[1..])
  }

  /** Over the life of a connection late DATA never exceeds the two budgets, whatever is retired. */
  lemma {:induction false} LateDataIsBounded(b: Budget, ops: seq<BudgetOp>)
    requires WellFormed(b)
    ensures WellFormed(Run(b, ops))
    ensures Run(b, ops).remainingBytes + AcceptedBytes(b, ops) == b.remainingBytes
    ensures Run(b, ops).remainingFrames + AcceptedFrames(b, ops) == b.remainingFrames
    decreases |ops|
  {
    if ops != [] {
      match ops[0] {
        case Permit(s, bytes) => AllowKeepsWellFormed(b, s, bytes);
        case Late(s, size) => if Refused(b, s, size) == Accepted { SpentKeepsWellFormed(b, s, size); }
      }
      LateDataIsBounded(Perform(b, ops[0]), ops[1..]);
    }
  }

  // -------------------------------------------------------- as it is kept

  class RetiredDataBudget {
    const maximumBytes: nat
    const maximumTrackedStreams: nat
    var remainingBytes: nat
    var remainingFrames: nat
    var streamBytes: seq<Allowance>

    ghost function State(): Budget
      reads this
    {
      Budget(maximumBytes, maximumTrackedStreams, remainingBytes, remainingFrames, streamBytes)
    }

    constructor (bytes: nat, frames: nat)
      requires bytes > 0 && frames > 0
      ensures State() == FreshBudget(bytes, frames)
    {
      maximumBytes, maximumTrackedStreams := bytes, frames;
      remainingBytes, remainingFrames, streamBytes := bytes, frames, [];
    }

    method AllowLate(streamId: int, bytes: int) returns (verdict: Verdict)
      modifies this
      ensures verdict == if streamId <= 0 || bytes < 0 then NotPositive else Accepted
      ensures State() == if verdict == Accepted then Allow(old(State()), streamId, bytes) else old(State())
    {
      if streamId <= 0 || bytes < 0 { return NotPositive; }
      if bytes == 0 || remainingFrames == 0 || remainingBytes == 0 || Tracked(streamBytes, streamId) {
        return Accepted;
      }
      if |streamBytes| >= maximumTrackedStreams {
        if streamBytes != [] { streamBytes := streamBytes[1..]; }
      }
      streamBytes := streamBytes + [Allowance(streamId, Smaller(bytes, maximumBytes))];
      return Accepted;
    }

    method ConsumeLate(streamId: int, bytes: int) returns (verdict: Verdict)
      modifies this
      ensures verdict == Refused(old(State()), streamId, bytes)
      ensures State() == Consume(old(State()), streamId, bytes)
    {
      if streamId <= 0 || bytes <= 0 { return NotPositive; }
      if remainingFrames == 0 { return FramesExhausted; }
      var availableBytes := Allowed(streamBytes, streamId);
      if bytes > availableBytes || bytes > remainingBytes { return BytesExhausted; }
      remainingFrames := remainingFrames - 1;
      remainingBytes := remainingBytes - bytes;
      streamBytes := Dropped(streamBytes, streamId);
      if remainingFrames == 0 || remainingBytes == 0 {
        streamBytes := [];
      } else if availableBytes - bytes > 0 {
        streamBytes := streamBytes + [Allowance(streamId, availableBytes - bytes)];
      }
      return Accepted;
    }
  }
}
