/** How the gateway numbers streams and how the client follows: odd ids, in order, never twice on a connection. */
module StreamIds {

  const MAX_ID := 0xffff_ffff

  datatype Issue = Issued(id: nat) | Exhausted

  function NextIssue(highest: nat): Issue {
    if highest > 0xffff_fffd then Exhausted
    else Issued(if highest == 0 then 1 else highest + 2)
  }

  /** The id the n-th call of a connection gets. */
  function Nth(n: nat): nat {
    2 * n + 1
  }

  /** The highest id after n calls. */
  function HighestAfter(n: nat): nat {
    if n == 0 then 0 else Nth(n - 1)
  }

  predicate WasIssued(highest: nat, streamId: int) {
    0 < streamId <= highest && streamId % 2 == 1
  }

  /** The ids of a connection are 1, 3, 5, ... up to the last odd uint32, and then no more. */
  lemma IssuesInOrder(n: nat)
    ensures NextIssue(HighestAfter(n)) == if Nth(n) <= MAX_ID then Issued(Nth(n)) else Exhausted
    ensures forall s :: WasIssued(HighestAfter(n), s) <==> exists k :: 0 <= k < n && s == Nth(k)
  {
    forall s ensures WasIssued(HighestAfter(n), s) <==> exists k :: 0 <= k < n && s == Nth(k) {
      if WasIssued(HighestAfter(n), s) {
        assert s == Nth(s / 2) && 0 <= s / 2 < n;
      }
    }
  }

  // ------------------------------------------------------------ the client

  datatype Opening = Opens | NotUint32 | Even | Reused | OutOfSequence

  datatype Remote = Remote(active: set<int>, highest: nat)

  function Expected(r: Remote): nat {
    if r.highest == 0 then 1 else r.highest + 2
  }

  function Judge(r: Remote, streamId: int): Opening {
    if streamId <= 0 || streamId > MAX_ID then NotUint32
    else if streamId % 2 == 0 then Even
    else if streamId != Expected(r) then (if streamId <= r.highest then Reused else OutOfSequence)
    else Opens
  }

  predicate Retired(r: Remote, streamId: int) {
    0 < streamId <= r.highest && streamId % 2 == 1 && streamId !in r.active
  }

  datatype Move = Open(streamId: int) | Shut(streamId: int)

  function Moved(r: Remote, m: Move): Remote {
    match m
    case Open(s) => if Judge(r, s) == Opens then Remote(r.active + {s}, s) else r
    case Shut(s) => if s in r.active then r.(active := r.active - {s}) else r
  }

  function Run(r: Remote, moves: seq<Move>): Remote
    decreases |moves|
  {
    if moves == [] then r else Run(Moved(r, moves[0]), moves[1..])
  }

  function Openings(r: Remote, moves: seq<Move>): seq<int>
    decreases |moves|
  {
    if moves == [] then []
    else (if moves[0].Open? && Judge(r, moves[0].streamId) == Opens then [moves[0].streamId] else [])
         + Openings(Moved(r, moves[0]), moves[1..])
  }

  ghost predicate Follows(r: Remote, n: nat) {
    && r.highest == HighestAfter(n)
    && r.highest <= MAX_ID
    && forall s | s in r.active :: WasIssued(r.highest, s)
  }

  /**
   Whatever frames arrive, the ids the client opens are exactly the gateway's next
   ids in order, so none opens twice; and an id the gateway issued is active at
   the client, retired there, or not yet arrived.
   */
  lemma {:induction false} ClientFollowsGateway(r: Remote, n: nat, moves: seq<Move>)
    requires Follows(r, n)
    ensures var ids := Openings(r, moves);
            && Follows(Run(r, moves), n + |ids|)
            && forall i | 0 <= i < |ids| :: ids[i] == Nth(n + i)
    decreases |moves|
  {
    if moves != [] {
      var first := if moves[0].Open? && Judge(r, moves[0].streamId) == Opens then [moves[0].streamId] else [];
      var next := Moved(r, moves[0]);
      ClientFollowsGateway(next, n + |first|, moves[1..]);
      var rest := Openings(next, moves[1..]);
      forall i | 0 <= i < |first + rest| ensures (first + rest)[i] == Nth(n + i) {
        if i >= |first| {
          assert (first + rest)[i] == rest[i - |first|];
        }
      }
    }
  }

  /** The next id the gateway issues is the one and only id the client will open. */
  lemma OnlyTheNextIdOpens(r: Remote, n: nat, streamId: int)
    requires Follows(r, n)
    ensures Judge(r, streamId) == Opens
            <==> NextIssue(HighestAfter(n)).Issued? && NextIssue(HighestAfter(n)).id == streamId
    ensures Retired(r, streamId) <==> WasIssued(HighestAfter(n), streamId) && streamId !in r.active
  {
  }

  // -------------------------------------------------------- as they are kept

  class GatewayStreamIds {
    var highestIssuedStreamId: nat

    constructor ()
      ensures highestIssuedStreamId == HighestAfter(0)
    {
      highestIssuedStreamId := 0;
    }

    method IssueId() returns (issue: Issue)
      modifies this
      ensures issue == NextIssue(old(highestIssuedStreamId))
      ensures highestIssuedStreamId == if issue.Issued? then issue.id else old(highestIssuedStreamId)
    {
      if highestIssuedStreamId > 0xffff_fffd { return Exhausted; }
      highestIssuedStreamId := if highestIssuedStreamId == 0 then 1 else highestIssuedStreamId + 2;
      return Issued(highestIssuedStreamId);
    }

    method Restart()
      modifies this
      ensures highestIssuedStreamId == HighestAfter(0)
    {
      highestIssuedStreamId := 0;
    }
  }

  class RemoteStreamLifecycle {
    var active: set<int>
    var highestOpenedStreamId: nat

    ghost function State(): Remote
      reads this
    {
      Remote(active, highestOpenedStreamId)
    }

    constructor ()
      ensures State() == Remote({}, 0)
    {
      active, highestOpenedStreamId := {}, 0;
    }

    method OpenRemote(streamId: int) returns (verdict: Opening)
      modifies this
      ensures verdict == Judge(old(State()), streamId)
      ensures State() == Moved(old(State()), Open(streamId))
    {
      if streamId <= 0 || streamId > MAX_ID { return NotUint32; }
      if streamId % 2 == 0 { return Even; }
      var expected := if highestOpenedStreamId == 0 then 1 else highestOpenedStreamId + 2;
      if streamId != expected {
        return if streamId <= highestOpenedStreamId then Reused else OutOfSequence;
      }
      highestOpenedStreamId := streamId;
      active := active + {streamId};
      return Opens;
    }

    method CloseRemote(streamId: int) returns (wasActive: bool)
      modifies this
      ensures wasActive == (streamId in old(active))
      ensures State() == Moved(old(State()), Shut(streamId))
    {
      if streamId !in active { return false; }
      active := active - {streamId};
      return true;
    }
  }
}
