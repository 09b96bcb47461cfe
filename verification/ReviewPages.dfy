/** Cursor pagination of comments and replies: newest first by creation time, ties broken by id. */
module ReviewPages {
  import opened Options

  type Id(==, !new)

  /** How ids are ordered is not the pager's business; any strict total order will do. */
  type Compare = (Id, Id) -> int

  datatype Position = Position(createdAt: int, id: Id)

  datatype Item = Item(position: Position, content: int)

  datatype Page = Page(items: seq<Item>, hasMore: bool, nextCursor: Option<Position>)

  ghost predicate StrictTotal(compare: Compare) {
    && (forall a, b :: compare(a, b) == 0 <==> a == b)
    && (forall a, b :: compare(a, b) < 0 <==> compare(b, a) > 0)
    && (forall a, b, c :: compare(a, b) < 0 && compare(b, c) < 0 ==> compare(a, c) < 0)
  }

  function ComparePosition(compare: Compare, left: Position, right: Position): int {
    var time := left.createdAt - right.createdAt;
    if time == 0 then compare(left.id, right.id) else time
  }

  predicate Older(compare: Compare, left: Position, right: Position) {
    ComparePosition(compare, left, right) < 0
  }

  predicate BeforeCursor(compare: Compare, item: Item, cursor: Option<Position>) {
    cursor.None? || Older(compare, item.position, cursor.value)
  }

  function Below(compare: Compare, values: seq<Item>, cursor: Option<Position>): (kept: seq<Item>)
    ensures forall x :: x in kept <==> x in values && BeforeCursor(compare, x, cursor)
  {
    if values == [] then []
    else
      var rest := Below(compare, values[1..], cursor);
      assert values == [values[0]] + values[1..];
      if BeforeCursor(compare, values[0], cursor) then [values[0]] + rest else rest
  }

  function Insert(compare: Compare, x: Item, sorted: seq<Item>): (r: seq<Item>)
    ensures |r| == |sorted| + 1
    ensures forall y :: y in r <==> y == x || y in sorted
  {
    if sorted == [] || Older(compare, sorted[0].position, x.position) then [x] + sorted
    else
      assert sorted == [sorted[0]] + sorted[1..];
      [sorted[0]] + Insert(compare, x, sorted[1..])
  }

  /** Newest first. */
  function SortDown(compare: Compare, values: seq<Item>): (r: seq<Item>)
    ensures |r| == |values|
    ensures forall y :: y in r <==> y in values
  {
    if values == [] then []
    else
      assert values == [values[0]] + values[1..];
      Insert(compare, values[0], SortDown(compare, values[1..]))
  }

  function Reverse(s: seq<Item>): (r: seq<Item>)
    ensures |r| == |s|
    ensures forall i | 0 <= i < |s| :: r[i] == s[|s| - 1 - i]
  {
    if s == [] then [] else Reverse(s[1..]) + [s[0]]
  }

  function Newest(compare: Compare, values: seq<Item>, cursor: Option<Position>, limit: nat): seq<Item> {
    var descending := SortDown(compare, Below(compare, values, cursor));
    if |descending| <= limit then descending else descending[..limit]
  }

  function SelectPage(compare: Compare, values: seq<Item>, cursor: Option<Position>, limit: nat): Page {
    var descending := SortDown(compare, Below(compare, values, cursor));
    var selected := Newest(compare, values, cursor, limit);
    var hasMore := |descending| > limit;
    Page(Reverse(selected), hasMore,
         if hasMore && selected != [] then Some(selected[|selected| - 1].position) else None)
  }

  // ----------------------------------------------------------------- ordering

  ghost predicate Descending(compare: Compare, s: seq<Item>) {
    forall i, j | 0 <= i < j < |s| :: Older(compare, s[j].position, s[i].position)
  }

  ghost predicate Distinct(s: seq<Item>) {
    forall i, j | 0 <= i < j < |s| :: s[i].position != s[j].position
  }

  /** Older is created earlier, or at the same time under the smaller id. */
  lemma OlderIsExact(compare: Compare, a: Position, b: Position)
    ensures Older(compare, a, b) <==>
              a.createdAt < b.createdAt || (a.createdAt == b.createdAt && compare(a.id, b.id) < 0)
  {
  }

  lemma OlderIsTotal(compare: Compare, a: Position, b: Position)
    requires StrictTotal(compare)
    ensures a == b || Older(compare, a, b) || Older(compare, b, a)
    ensures !(Older(compare, a, b) && Older(compare, b, a))
    ensures !Older(compare, a, a)
  {
  }

  lemma OlderIsTransitive(compare: Compare, a: Position, b: Position, c: Position)
    requires StrictTotal(compare) && Older(compare, a, b) && Older(compare, b, c)
    ensures Older(compare, a, c)
  {
  }

  lemma {:induction false} InsertKeepsOrder(compare: Compare, x: Item, sorted: seq<Item>)
    requires StrictTotal(compare) && Descending(compare, sorted)
    requires forall y | y in sorted :: y.position != x.position
    ensures Descending(compare, Insert(compare, x, sorted))
    decreases |sorted|
  {
    if sorted != [] {
      OlderIsTotal(compare, sorted[0].position, x.position);
      if Older(compare, sorted[0].position, x.position) {
        var r := [x] + sorted;
        forall i, j | 0 <= i < j < |r| ensures Older(compare, r[j].position, r[i].position) {
          if i == 0 && j > 1 {
            OlderIsTransitive(compare, sorted[j - 1].position, sorted[0].position, x.position);
          }
        }
      } else {
        InsertKeepsOrder(compare, x, sorted[1..]);
        var rest := Insert(compare, x, sorted[1..]);
        forall j | 0 <= j < |rest| ensures Older(compare, rest[j].position, sorted[0].position) {
          assert rest[j] in rest;
        }
      }
    }
  }

  lemma {:induction false} SortDownSorts(compare: Compare, values: seq<Item>)
    requires StrictTotal(compare) && Distinct(values)
    ensures Descending(compare, SortDown(compare, values))
    decreases |values|
  {
    if values != [] {
      SortDownSorts(compare, values[1..]);
      InsertKeepsOrder(compare, values[0], SortDown(compare, values[1..]));
    }
  }

  lemma {:induction false} BelowKeepsDistinct(compare: Compare, values: seq<Item>, cursor: Option<Position>)
    requires Distinct(values)
    ensures Distinct(Below(compare, values, cursor))
    decreases |values|
  {
    if values != [] {
      BelowKeepsDistinct(compare, values[1..], cursor);
      var rest := Below(compare, values[1..], cursor);
      forall j | 0 <= j < |rest| ensures rest[j].position != values[0].position {
        assert rest[j] in rest;
      }
    }
  }

  /** A page holds the newest items before the cursor, as many as the limit allows, and no others. */
  lemma PageIsExact(compare: Compare, values: seq<Item>, cursor: Option<Position>, limit: nat)
    requires StrictTotal(compare) && Distinct(values)
    ensures var page := SelectPage(compare, values, cursor, limit);
            var newest := Newest(compare, values, cursor, limit);
            && page.items == Reverse(newest) && Descending(compare, newest)
            && (forall x | x in newest :: x in values && BeforeCursor(compare, x, cursor))
            && (forall x | x in values && BeforeCursor(compare, x, cursor) ::
                  x in newest || (page.hasMore && forall y | y in newest :: Older(compare, x.position, y.position)))
            && |newest| <= limit && (page.hasMore ==> |newest| == limit)
            && (page.hasMore && limit > 0 ==> page.nextCursor == Some(newest[limit - 1].position))
  {
    CandidatesDescend(compare, values, cursor);
    var descending := SortDown(compare, Below(compare, values, cursor));
    var newest := Newest(compare, values, cursor, limit);
    if |descending| > limit {
      PrefixIsNewer(compare, descending, limit);
    }
  }

  /** Everything before the cursor, sorted. */
  lemma CandidatesDescend(compare: Compare, values: seq<Item>, cursor: Option<Position>)
    requires StrictTotal(compare) && Distinct(values)
    ensures var descending := SortDown(compare, Below(compare, values, cursor));
            && Descending(compare, descending)
            && forall x :: x in descending <==> x in values && BeforeCursor(compare, x, cursor)
  {
    BelowKeepsDistinct(compare, values, cursor);
    SortDownSorts(compare, Below(compare, values, cursor));
  }

  lemma PrefixIsNewer(compare: Compare, descending: seq<Item>, limit: nat)
    requires Descending(compare, descending) && limit <= |descending|
    ensures Descending(compare, descending[..limit])
    ensures forall x | x in descending[..limit] :: x in descending
    ensures forall x | x in descending ::
              x in descending[..limit] || forall y | y in descending[..limit] :: Older(compare, x.position, y.position)
  {
  }

  // ------------------------------------------------------------------ a walk

  /** Every read sees its own snapshot; the walk follows nextCursor until a page says there is no more. */
  function Walk(compare: Compare, snapshots: seq<seq<Item>>, cursor: Option<Position>, limit: nat): seq<Item>
    decreases |snapshots|
  {
    if snapshots == [] then []
    else
      var page := SelectPage(compare, snapshots[0], cursor, limit);
      Newest(compare, snapshots[0], cursor, limit)
      + if page.nextCursor.Some? then Walk(compare, snapshots[1..], page.nextCursor, limit) else []
  }

  predicate Ends(compare: Compare, snapshots: seq<seq<Item>>, cursor: Option<Position>, limit: nat)
    decreases |snapshots|
  {
    && snapshots != []
    && var page := SelectPage(compare, snapshots[0], cursor, limit);
       page.hasMore ==> page.nextCursor.Some? && Ends(compare, snapshots[1..], page.nextCursor, limit)
  }

  ghost predicate Holds(values: seq<Item>, position: Position) {
    exists i | 0 <= i < |values| :: values[i].position == position
  }

  /** Between reads items may be added or edited, but none moves and none goes. */
  ghost predicate Growing(snapshots: seq<seq<Item>>) {
    && (forall i | 0 <= i < |snapshots| :: Distinct(snapshots[i]))
    && (forall i, x: Item | 0 <= i < |snapshots| - 1 && x in snapshots[i] :: Holds(snapshots[i + 1], x.position))
  }

  lemma GrowingTail(snapshots: seq<seq<Item>>)
    requires Growing(snapshots) && |snapshots| > 1
    ensures Growing(snapshots[1..])
    ensures forall x | x in snapshots[0] :: Holds(snapshots[1], x.position)
  {
    var rest := snapshots[1..];
    forall i, x: Item | 0 <= i < |rest| - 1 && x in rest[i] ensures Holds(rest[i + 1], x.position) {
      assert rest[i] == snapshots[i + 1] && rest[i + 1] == snapshots[i + 1 + 1];
    }
  }

  /** Strictly descending, hence without repeats, and below the cursor. */
  ghost predicate Falls(compare: Compare, read: seq<Item>, cursor: Option<Position>) {
    Descending(compare, read) && forall x | x in read :: BeforeCursor(compare, x, cursor)
  }

  lemma PageFalls(compare: Compare, values: seq<Item>, cursor: Option<Position>, limit: nat)
    requires StrictTotal(compare) && Distinct(values) && limit >= 1
    ensures var newest := Newest(compare, values, cursor, limit);
            var next := SelectPage(compare, values, cursor, limit).nextCursor;
            && Falls(compare, newest, cursor)
            && (next.Some? ==> newest != [] && next == Some(newest[|newest| - 1].position))
  {
    PageIsExact(compare, values, cursor, limit);
  }

  /** What the walk reads is in order and without repeats across all its pages. */
  lemma {:induction false} WalkDescends(
    compare: Compare, snapshots: seq<seq<Item>>, cursor: Option<Position>, limit: nat)
    requires StrictTotal(compare) && Growing(snapshots) && limit >= 1
    ensures Falls(compare, Walk(compare, snapshots, cursor, limit), cursor)
    decreases |snapshots|
  {
    if snapshots != [] {
      var next := SelectPage(compare, snapshots[0], cursor, limit).nextCursor;
      var first := Newest(compare, snapshots[0], cursor, limit);
      PageFalls(compare, snapshots[0], cursor, limit);
      if next.Some? {
        if |snapshots| > 1 {
          GrowingTail(snapshots);
        }
        WalkDescends(compare, snapshots[1..], next, limit);
        PagesChain(compare, first, Walk(compare, snapshots[1..], next, limit), cursor);
      }
    }
  }

  lemma PagesChain(compare: Compare, first: seq<Item>, rest: seq<Item>, cursor: Option<Position>)
    requires StrictTotal(compare) && first != [] && Falls(compare, first, cursor)
    requires Falls(compare, rest, Some(first[|first| - 1].position))
    ensures Falls(compare, first + rest, cursor)
  {
    var last := first[|first| - 1];
    forall i, j | 0 <= i < |first| && 0 <= j < |rest| ensures Older(compare, rest[j].position, first[i].position) {
      assert rest[j] in rest;
      if i < |first| - 1 {
        OlderIsTransitive(compare, rest[j].position, last.position, first[i].position);
      }
    }
    forall x | x in rest ensures BeforeCursor(compare, x, cursor) {
      assert last in first;
      if cursor.Some? {
        OlderIsTransitive(compare, x.position, last.position, cursor.value);
      }
    }
  }

  /**
   A walk that ends returns every item that was there when it started, exactly
   once and in order, whatever was added or edited between the page reads.
   */
  lemma {:induction false} WalkReadsEverything(
    compare: Compare, snapshots: seq<seq<Item>>, cursor: Option<Position>, limit: nat, x: Item)
    requires StrictTotal(compare) && Growing(snapshots) && limit >= 1 && Ends(compare, snapshots, cursor, limit)
    requires x in snapshots[0] && BeforeCursor(compare, x, cursor)
    ensures var read := Walk(compare, snapshots, cursor, limit);
            && Descending(compare, read)
            && exists k | 0 <= k < |read| ::
                 && read[k].position == x.position
                 && forall i | 0 <= i < |read| && read[i].position == x.position :: i == k
    decreases |snapshots|
  {
    WalkDescends(compare, snapshots, cursor, limit);
    var read := Walk(compare, snapshots, cursor, limit);
    WalkHolds(compare, snapshots, cursor, limit, x);
    var k :| 0 <= k < |read| && read[k].position == x.position;
    forall i | 0 <= i < |read| && read[i].position == x.position ensures i == k {
      OlderIsTotal(compare, x.position, x.position);
    }
  }

  lemma {:induction false} WalkHolds(
    compare: Compare, snapshots: seq<seq<Item>>, cursor: Option<Position>, limit: nat, x: Item)
    requires StrictTotal(compare) && Growing(snapshots) && limit >= 1 && Ends(compare, snapshots, cursor, limit)
    requires x in snapshots[0] && BeforeCursor(compare, x, cursor)
    ensures Holds(Walk(compare, snapshots, cursor, limit), x.position)
    decreases |snapshots|
  {
    var page := SelectPage(compare, snapshots[0], cursor, limit);
    var first := Newest(compare, snapshots[0], cursor, limit);
    if x in first {
      FirstPageHolds(first, Walk(compare, snapshots, cursor, limit), x);
    } else {
      LeftForLater(compare, snapshots[0], cursor, limit, x);
      GrowingTail(snapshots);
      var i :| 0 <= i < |snapshots[1]| && snapshots[1][i].position == x.position;
      WalkHolds(compare, snapshots[1..], page.nextCursor, limit, snapshots[1][i]);
      LaterPageHolds(first, Walk(compare, snapshots[1..], page.nextCursor, limit), x.position);
    }
  }

  /** An item that a page leaves out lies before the cursor of the next page. */
  lemma LeftForLater(compare: Compare, values: seq<Item>, cursor: Option<Position>, limit: nat, x: Item)
    requires StrictTotal(compare) && Distinct(values) && limit >= 1
    requires x in values && BeforeCursor(compare, x, cursor) && x !in Newest(compare, values, cursor, limit)
    ensures var page := SelectPage(compare, values, cursor, limit);
            page.hasMore && page.nextCursor.Some? && BeforeCursor(compare, x, page.nextCursor)
  {
    PageIsExact(compare, values, cursor, limit);
    var newest := Newest(compare, values, cursor, limit);
    assert newest[limit - 1] in newest;
  }

  lemma FirstPageHolds(first: seq<Item>, read: seq<Item>, x: Item)
    requires first <= read && x in first
    ensures Holds(read, x.position)
  {
    var k :| 0 <= k < |first| && first[k] == x;
    assert read[k] == x;
  }

  lemma LaterPageHolds(first: seq<Item>, rest: seq<Item>, position: Position)
    requires Holds(rest, position)
    ensures Holds(first + rest, position)
  {
    var k :| 0 <= k < |rest| && rest[k].position == position;
    assert (first + rest)[|first| + k] == rest[k];
  }
}
