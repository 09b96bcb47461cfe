/**
 What is in flight between a sender and a receiver, and what the receiver will
 hold once it has read it. Frames travel to the receiver, notices travel back;
 both in the order they were sent.
 */
module Channel {
  import opened Sums

  datatype Frame =
    | Open(streamId: int, window: nat)
    | Data(streamId: int, bytes: nat)
    | End(streamId: int)
    | Reset(streamId: int)

  datatype Notice =
    | Announce(streamId: int, window: nat)
    | Credit(streamId: int, bytes: nat)
    | Cancel(streamId: int)

  /** Bytes the receiver holds on each open stream. */
  type Load = map<int, nat>

  ghost function Bytes(frames: seq<Frame>, s: int): nat {
    if frames == [] then 0
    else (if frames[0].Data? && frames[0].streamId == s then frames[0].bytes else 0) + Bytes(frames[1..], s)
  }

  ghost function Credited(notices: seq<Notice>, s: int): nat {
    if notices == [] then 0
    else (if notices[0].Credit? && notices[0].streamId == s then notices[0].bytes else 0) + Credited(notices[1..], s)
  }

  ghost predicate Opens(frames: seq<Frame>, s: int) {
    exists i :: 0 <= i < |frames| && frames[i].Open? && frames[i].streamId == s
  }

  ghost predicate Mentions(frames: seq<Frame>, s: int) {
    exists i :: 0 <= i < |frames| && frames[i].streamId == s
  }

  /** The load after the receiver reads one more frame, with no limit applied. */
  ghost function After(load: Load, f: Frame): Load {
    match f
    case Open(s, _) => load[s := 0]
    case Data(s, bytes) => if s in load then load[s := load[s] + bytes] else load
    case End(_) => load
    case Reset(s) => load - {s}
  }

  ghost function Replay(load: Load, frames: seq<Frame>): Load
    decreases |frames|
  {
    if frames == [] then load else Replay(After(load, frames[0]), frames[1..])
  }

  ghost predicate Within(load: Load, windows: map<int, nat>, limit: nat) {
    && Sum(load) <= limit
    && forall s | s in load :: s in windows && load[s] <= windows[s]
  }

  /** DATA is never empty and meets an open stream or one the receiver has reset. */
  ghost predicate Expected(load: Load, f: Frame, cancelled: set<int>) {
    f.Data? ==> f.bytes > 0 && (f.streamId in load || f.streamId in cancelled)
  }

  /** However far the receiver reads, it stays within every limit. */
  ghost predicate Fits(load: Load, frames: seq<Frame>, windows: map<int, nat>, cancelled: set<int>, limit: nat)
    decreases |frames|
  {
    && Within(load, windows, limit)
    && (frames == [] ||
        (&& Expected(load, frames[0], cancelled)
         && Fits(After(load, frames[0]), frames[1..], windows, cancelled, limit)))
  }

  // -------------------------------------------------------------- counting

  lemma {:induction false} BytesOfConcat(a: seq<Frame>, b: seq<Frame>, s: int)
    ensures Bytes(a + b, s) == Bytes(a, s) + Bytes(b, s)
  {
    if a == [] {
      assert a + b == b;
    } else {
      assert (a + b)[1..] == a[1..] + b;
      BytesOfConcat(a[1..], b, s);
    }
  }

  lemma {:induction false} CreditedOfAppend(notices: seq<Notice>, last: Notice, s: int)
    ensures Credited(notices + [last], s)
            == Credited(notices, s) + (if last.Credit? && last.streamId == s then last.bytes else 0)
  {
    if notices == [] {
      assert notices + [last] == [last];
    } else {
      assert (notices + [last])[1..] == notices[1..] + [last];
      CreditedOfAppend(notices[1..], last, s);
    }
  }

  lemma {:induction false} UnmentionedBytes(frames: seq<Frame>, s: int)
    requires forall i | 0 <= i < |frames| :: frames[i].Data? ==> frames[i].streamId != s
    ensures Bytes(frames, s) == 0
  {
    if frames != [] {
      UnmentionedBytes(frames[1..], s);
    }
  }

  lemma {:induction false} UnmentionedCredit(notices: seq<Notice>, s: int)
    requires forall i | 0 <= i < |notices| :: notices[i].Credit? ==> notices[i].streamId != s
    ensures Credited(notices, s) == 0
  {
    if notices != [] {
      UnmentionedCredit(notices[1..], s);
    }
  }

  // ---------------------------------------------------------------- replay

  lemma {:induction false} ReplayOfConcat(load: Load, a: seq<Frame>, b: seq<Frame>)
    ensures Replay(load, a + b) == Replay(Replay(load, a), b)
    decreases |a|
  {
    if a == [] {
      assert a + b == b;
    } else {
      assert (a + b)[1..] == a[1..] + b;
      ReplayOfConcat(After(load, a[0]), a[1..], b);
    }
  }

  lemma TailOpens(frames: seq<Frame>, s: int)
    requires frames != [] && !Opens(frames, s)
    ensures !Opens(frames[1..], s) && !(frames[0].Open? && frames[0].streamId == s)
  {
  }

  /** A stream that no frame opens only grows by its DATA, unless it disappears. */
  lemma {:induction false} ReplayOfStream(load: Load, frames: seq<Frame>, s: int)
    requires !Opens(frames, s)
    ensures s in Replay(load, frames) ==> s in load && Replay(load, frames)[s] == load[s] + Bytes(frames, s)
    decreases |frames|
  {
    if frames != [] {
      TailOpens(frames, s);
      ReplayOfStream(After(load, frames[0]), frames[1..], s);
    }
  }

  /** It disappears only by a RESET in flight. */
  lemma {:induction false} ReplayKeepsStream(load: Load, frames: seq<Frame>, s: int)
    requires s in load
    requires forall i | 0 <= i < |frames| :: frames[i].Reset? ==> frames[i].streamId != s
    ensures s in Replay(load, frames)
    decreases |frames|
  {
    if frames != [] {
      ReplayKeepsStream(After(load, frames[0]), frames[1..], s);
    }
  }

  lemma {:induction false} ReplayWithout(load: Load, frames: seq<Frame>, s: int)
    requires !Opens(frames, s)
    ensures Replay(load - {s}, frames) == Replay(load, frames) - {s}
    decreases |frames|
  {
    if frames != [] {
      TailOpens(frames, s);
      ReplayWithout(After(load, frames[0]), frames[1..], s);
      assert After(load - {s}, frames[0]) == After(load, frames[0]) - {s};
    }
  }

  /** Lowering one stream's load lowers it after the replay by as much. */
  lemma {:induction false} ReplayLowered(load: Load, frames: seq<Frame>, s: int, bytes: nat)
    requires !Opens(frames, s)
    requires s in load && bytes <= load[s]
    ensures var future := Replay(load, frames);
            && (s in future ==> bytes <= future[s])
            && Replay(load[s := load[s] - bytes], frames)
               == if s in future then future[s := future[s] - bytes] else future
    decreases |frames|
  {
    if frames != [] {
      TailOpens(frames, s);
      var next := After(load, frames[0]);
      var lowered := load[s := load[s] - bytes];
      if frames[0] == Reset(s) {
        assert After(lowered, frames[0]) == next;
        ReplayOfStream(next, frames[1..], s);
      } else {
        assert After(lowered, frames[0]) == next[s := next[s] - bytes];
        ReplayLowered(next, frames[1..], s, bytes);
      }
    }
  }

  lemma {:induction false} ReplayWithNew(load: Load, frames: seq<Frame>, s: int)
    requires !Mentions(frames, s) && s !in load
    ensures Replay(load[s := 0], frames) == Replay(load, frames)[s := 0]
    decreases |frames|
  {
    if frames != [] {
      assert frames[0].streamId != s;
      TailMentions(frames, s);
      assert After(load[s := 0], frames[0]) == After(load, frames[0])[s := 0];
      ReplayWithNew(After(load, frames[0]), frames[1..], s);
    }
  }

  lemma TailMentions(frames: seq<Frame>, s: int)
    requires frames != [] && !Mentions(frames, s)
    ensures !Mentions(frames[1..], s)
  {
  }

  /** DATA frames add their bytes to the streams that are open. */
  lemma {:induction false} ReplayOfData(load: Load, frames: seq<Frame>)
    requires forall i | 0 <= i < |frames| :: frames[i].Data?
    ensures Replay(load, frames).Keys == load.Keys
    ensures forall s | s in load :: Replay(load, frames)[s] == load[s] + Bytes(frames, s)
    decreases |frames|
  {
    if frames != [] {
      ReplayOfData(After(load, frames[0]), frames[1..]);
    }
  }

  // ------------------------------------------------------------------ fits

  lemma {:induction false} FitsEnds(
    load: Load, frames: seq<Frame>, windows: map<int, nat>, cancelled: set<int>, limit: nat)
    requires Fits(load, frames, windows, cancelled, limit)
    ensures Within(Replay(load, frames), windows, limit)
    decreases |frames|
  {
    if frames != [] {
      FitsEnds(After(load, frames[0]), frames[1..], windows, cancelled, limit);
    }
  }

  lemma {:induction false} FitsAppend(
    load: Load, frames: seq<Frame>, last: Frame, windows: map<int, nat>, cancelled: set<int>, limit: nat)
    requires Fits(load, frames, windows, cancelled, limit)
    requires Expected(Replay(load, frames), last, cancelled)
    requires Within(After(Replay(load, frames), last), windows, limit)
    ensures Fits(load, frames + [last], windows, cancelled, limit)
    decreases |frames|
  {
    if frames == [] {
      assert frames + [last] == [last];
      assert [last][1..] == [];
    } else {
      assert (frames + [last])[1..] == frames[1..] + [last];
      FitsAppend(After(load, frames[0]), frames[1..], last, windows, cancelled, limit);
    }
  }

  /** Adding DATA keeps within the limits all along if it does so at the end. */
  lemma {:induction false} FitsAppendData(
    load: Load, frames: seq<Frame>, more: seq<Frame>, windows: map<int, nat>, cancelled: set<int>, limit: nat)
    requires Fits(load, frames, windows, cancelled, limit)
    requires forall i | 0 <= i < |more| ::
               && more[i].Data? && more[i].bytes > 0
               && (more[i].streamId in Replay(load, frames) || more[i].streamId in cancelled)
    requires Within(Replay(Replay(load, frames), more), windows, limit)
    ensures Fits(load, frames + more, windows, cancelled, limit)
    decreases |more|
  {
    if more == [] {
      assert frames + more == frames;
    } else {
      var future := Replay(load, frames);
      var next := After(future, more[0]);
      ReplayOfData(next, more[1..]);
      SumIsMonotone(next, Replay(next, more[1..]));
      FitsAppend(load, frames, more[0], windows, cancelled, limit);
      ReplayOfConcat(load, frames, [more[0]]);
      assert Replay(future, [more[0]]) == next by { assert [more[0]][1..] == []; }
      FitsAppendData(load, frames + [more[0]], more[1..], windows, cancelled, limit);
      assert frames + [more[0]] + more[1..] == frames + more;
    }
  }

  ghost predicate Below(low: Load, high: Load) {
    forall s | s in low :: s in high && low[s] <= high[s]
  }

  lemma WithinBelow(low: Load, high: Load, windows: map<int, nat>, limit: nat)
    requires Below(low, high) && Within(high, windows, limit)
    ensures Within(low, windows, limit)
  {
    SumIsMonotone(low, high);
  }

  /** A receiver that holds less fits too, if what it no longer expects is cancelled or not sent. */
  lemma {:induction false} FitsBelow(low: Load, high: Load, frames: seq<Frame>, windows: map<int, nat>,
                                     fewer: set<int>, cancelled: set<int>, limit: nat)
    requires Below(low, high) && fewer <= cancelled
    requires Fits(high, frames, windows, fewer, limit)
    requires forall i | 0 <= i < |frames| :: frames[i].Data? && frames[i].streamId in high && frames[i].streamId !in low
               ==> frames[i].streamId in cancelled
    ensures Fits(low, frames, windows, cancelled, limit)
    decreases |frames|
  {
    WithinBelow(low, high, windows, limit);
    if frames != [] {
      FitsBelow(After(low, frames[0]), After(high, frames[0]), frames[1..], windows, fewer, cancelled, limit);
    }
  }

  /** Opening a stream nobody has mentioned changes nothing else. */
  lemma {:induction false} FitsWithNew(
    load: Load, frames: seq<Frame>, windows: map<int, nat>, cancelled: set<int>, limit: nat, s: int, window: nat)
    requires Fits(load, frames, windows, cancelled, limit)
    requires !Mentions(frames, s) && s !in load && s !in windows
    ensures Fits(load[s := 0], frames, windows[s := window], cancelled, limit)
    ensures Fits(load, frames, windows[s := window], cancelled, limit)
    decreases |frames|
  {
    SumOfUpdate(load, s, 0);
    if frames != [] {
      assert frames[0].streamId != s;
      TailMentions(frames, s);
      assert After(load[s := 0], frames[0]) == After(load, frames[0])[s := 0];
      FitsWithNew(After(load, frames[0]), frames[1..], windows, cancelled, limit, s, window);
    }
  }

  /** All DATA in flight for an open stream fits its window and the connection, RESETs in flight or not. */
  lemma {:induction false} StreamFits(
    load: Load, frames: seq<Frame>, windows: map<int, nat>, cancelled: set<int>, limit: nat, s: int)
    requires Fits(load, frames, windows, cancelled, limit)
    requires s in load && s !in cancelled && !Opens(frames, s)
    ensures s in windows && load[s] + Bytes(frames, s) <= windows[s]
    ensures load[s] + Bytes(frames, s) <= limit
    decreases |frames|
  {
    SumBoundsEachKey(load, s);
    if frames != [] {
      TailOpens(frames, s);
      if frames[0] == Reset(s) {
        NothingAfterReset(After(load, frames[0]), frames[1..], windows, cancelled, limit, s);
      } else {
        StreamFits(After(load, frames[0]), frames[1..], windows, cancelled, limit, s);
      }
    }
  }

  lemma {:induction false} NothingAfterReset(
    load: Load, frames: seq<Frame>, windows: map<int, nat>, cancelled: set<int>, limit: nat, s: int)
    requires Fits(load, frames, windows, cancelled, limit)
    requires s !in load && s !in cancelled && !Opens(frames, s)
    ensures Bytes(frames, s) == 0
    decreases |frames|
  {
    if frames != [] {
      TailOpens(frames, s);
      NothingAfterReset(After(load, frames[0]), frames[1..], windows, cancelled, limit, s);
    }
  }
}
