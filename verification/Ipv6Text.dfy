/** IPv6 addresses as text: splitting, hexadecimal groups, zero compression. */
module Ipv6Text {
  import opened Options

  /** What a dotted IPv4 tail means; deciding which texts are IPv4 is left to the platform. */
  type Dotted = string -> Option<nat>

  // ------------------------------------------------------------------ splitting

  function Split(s: string, sep: char): (parts: seq<string>)
    ensures parts != []
  {
    if s == "" then [""]
    else
      var rest := Split(s[1..], sep);
      if s[0] == sep then [""] + rest else [[s[0]] + rest[0]] + rest[1..]
  }

  function Join(parts: seq<string>): string {
    if parts == [] then ""
    else if |parts| == 1 then parts[0]
    else parts[0] + ":" + Join(parts[1..])
  }

  predicate DoubleAt(s: string, i: int) {
    0 <= i && i + 1 < |s| && s[i] == ':' && s[i + 1] == ':'
  }

  /** The position of the first double colon, or the length. */
  function FirstDouble(s: string, from: nat): (i: nat)
    requires from <= |s|
    ensures from <= i <= |s|
    ensures i < |s| ==> DoubleAt(s, i)
    ensures forall j | from <= j < i :: !DoubleAt(s, j)
    decreases |s| - from
  {
    if from == |s| || DoubleAt(s, from) then from else FirstDouble(s, from + 1)
  }

  function SplitDouble(s: string): (parts: seq<string>)
    ensures parts != []
    decreases |s|
  {
    var i := FirstDouble(s, 0);
    if i == |s| then [s] else [s[..i]] + SplitDouble(s[i + 2..])
  }

  // ----------------------------------------------------------------- hexadecimal

  function HexDigit(d: nat): char
    requires d < 16
  {
    if d < 10 then '0' + d as char else 'a' + (d - 10) as char
  }

  predicate IsHexDigit(c: char) {
    '0' <= c <= '9' || 'a' <= c <= 'f'
  }

  function DigitValue(c: char): nat
    requires IsHexDigit(c)
  {
    if c <= '9' then (c - '0') as nat else (c - 'a') as nat + 10
  }

  function Hex(n: nat): (s: string)
    ensures |s| >= 1 && AllHex(s)
  {
    if n < 16 then [HexDigit(n)] else Hex(n / 16) + [HexDigit(n % 16)]
  }

  predicate AllHex(s: string) {
    forall i | 0 <= i < |s| :: IsHexDigit(s[i])
  }

  predicate IsGroup(s: string) {
    1 <= |s| <= 4 && AllHex(s)
  }

  function HexValue(s: string): nat
    requires AllHex(s)
  {
    if s == "" then 0 else HexValue(s[..|s| - 1]) * 16 + DigitValue(s[|s| - 1])
  }

  lemma DigitRoundTrip(d: nat)
    requires d < 16
    ensures IsHexDigit(HexDigit(d)) && DigitValue(HexDigit(d)) == d
  {
  }

  lemma {:induction false} HexRoundTrip(n: nat)
    ensures HexValue(Hex(n)) == n
  {
    if n < 16 {
      DigitRoundTrip(n);
      assert [HexDigit(n)][..0] == "";
    } else {
      HexRoundTrip(n / 16);
      DigitRoundTrip(n % 16);
      assert (Hex(n / 16) + [HexDigit(n % 16)])[..|Hex(n / 16)|] == Hex(n / 16);
    }
  }

  lemma {:induction false} HexIsGroup(n: nat)
    requires n < 65536
    ensures IsGroup(Hex(n))
  {
    assert n >= 4096 ==> n / 16 / 16 / 16 < 16;
    if n >= 16 {
      assert |Hex(n)| == |Hex(n / 16)| + 1;
      if n >= 256 {
        assert |Hex(n / 16)| == |Hex(n / 16 / 16)| + 1;
        if n >= 4096 {
          assert |Hex(n / 16 / 16)| == |Hex(n / 16 / 16 / 16)| + 1;
        }
      }
    }
  }

  // --------------------------------------------------------------------- parsing

  function Lower(s: string): (r: string)
    ensures |r| == |s|
    ensures forall i | 0 <= i < |s| :: r[i] == if 'A' <= s[i] <= 'Z' then s[i] - 'A' + 'a' else s[i]
  {
    if s == "" then "" else [if 'A' <= s[0] <= 'Z' then s[0] - 'A' + 'a' else s[0]] + Lower(s[1..])
  }

  /** The position after the last colon, or 0. */
  function TailStart(s: string): (i: nat)
    ensures i <= |s|
    ensures i > 0 ==> s[i - 1] == ':'
    ensures forall j | i <= j < |s| :: s[j] != ':'
  {
    if s == "" then 0
    else if s[|s| - 1] == ':' then |s|
    else TailStart(s[..|s| - 1])
  }

  predicate AllGroups(groups: seq<string>) {
    forall i | 0 <= i < |groups| :: IsGroup(groups[i])
  }

  function GroupValues(groups: seq<string>): (values: seq<nat>)
    requires AllGroups(groups)
    ensures |values| == |groups|
  {
    if groups == [] then []
    else
      assert IsGroup(groups[0]);
      [HexValue(groups[0])] + GroupValues(groups[1..])
  }

  function Zeros(n: nat): (z: seq<nat>)
    ensures |z| == n
    ensures forall i | 0 <= i < n :: z[i] == 0
  {
    if n == 0 then [] else [0] + Zeros(n - 1)
  }

  function PartsOf(half: string): seq<string> {
    if half == "" then [] else Split(half, ':')
  }

  /** The groups on either side of a double colon, if there was one, with zeros between to make eight. */
  function Combine(left: seq<string>, right: seq<string>, split: bool): Option<seq<nat>> {
    if !AllGroups(left) || !AllGroups(right) then None
    else
      var missing := 8 - |left| - |right|;
      if (!split && missing != 0) || (split && missing < 1) then None
      else Some(GroupValues(left) + Zeros(missing) + GroupValues(right))
  }

  function ParseNormalized(normalized: string): Option<seq<nat>> {
    var halves := SplitDouble(normalized);
    if |halves| > 2 then None
    else if |halves| == 1 then Combine(PartsOf(halves[0]), [], false)
    else Combine(PartsOf(halves[0]), PartsOf(halves[1]), true)
  }

  function ParseIpv6Groups(text: string, dotted: Dotted): Option<seq<nat>> {
    var lower := Lower(text);
    var tail := TailStart(lower);
    if '.' in lower[tail..] then
      var ipv4 := dotted(lower[tail..]);
      if ipv4.None? || tail == 0 then None
      else ParseNormalized(lower[..tail - 1] + ":" + Hex(ipv4.value / 65536) + ":" + Hex(ipv4.value % 65536))
    else ParseNormalized(lower)
  }

  // ------------------------------------------------------------------ formatting

  function HexGroups(groups: seq<nat>): (texts: seq<string>)
    ensures |texts| == |groups|
    ensures forall i | 0 <= i < |groups| :: texts[i] == Hex(groups[i])
  {
    if groups == [] then [] else [Hex(groups[0])] + HexGroups(groups[1..])
  }

  ghost predicate ZeroRun(groups: seq<nat>, start: int, length: int) {
    0 <= start && 0 < length && start + length <= |groups| && forall i | start <= i < start + length :: groups[i] == 0
  }

  /**
   The run that section 4.2 of RFC 5952 has compressed: the longest run of at
   least two zero groups, the leftmost of them if several are as long; (-1, 0)
   if there is none.
   */
  ghost predicate BestRun(groups: seq<nat>, start: int, length: int) {
    if length == 0 then start == -1 && forall s, n | n >= 2 :: !ZeroRun(groups, s, n)
    else
      && length >= 2 && ZeroRun(groups, start, length)
      && forall s, n | n >= 2 && ZeroRun(groups, s, n) :: n < length || (n == length && start <= s)
  }

  lemma BestRunIsUnique(groups: seq<nat>, a: int, m: int, b: int, n: int)
    requires BestRun(groups, a, m) && BestRun(groups, b, n)
    ensures a == b && m == n
  {
  }

  function Compressed(groups: seq<nat>, start: int, length: nat): string
    requires length > 0 ==> 0 <= start && start + length <= |groups|
  {
    if length == 0 then Join(HexGroups(groups))
    else Join(HexGroups(groups[..start])) + "::" + Join(HexGroups(groups[start + length..]))
  }

  // ------------------------------------------------------------------ round trip

  ghost predicate ColonFree(parts: seq<string>) {
    forall i | 0 <= i < |parts| :: parts[i] != "" && ':' !in parts[i]
  }

  /** No double colon inside, no colon at either end. */
  ghost predicate Tidy(s: string) {
    && (forall i :: !DoubleAt(s, i))
    && (s != "" ==> s[0] != ':' && s[|s| - 1] != ':')
  }

  lemma {:induction false} JoinIsTidy(parts: seq<string>)
    requires ColonFree(parts)
    ensures Tidy(Join(parts)) && (parts != [] ==> Join(parts) != "")
    decreases |parts|
  {
    if |parts| == 1 {
      assert forall i | 0 <= i < |parts[0]| :: parts[0][i] in parts[0];
    } else if |parts| > 1 {
      assert forall i | 0 <= i < |parts[0]| :: parts[0][i] in parts[0];
      JoinIsTidy(parts[1..]);
      var s := parts[0] + ":" + Join(parts[1..]);
      forall i ensures !DoubleAt(s, i) {
        var k := |parts[0]|;
        if i > k && i + 1 < |s| {
          assert s[i] == Join(parts[1..])[i - k - 1] && s[i + 1] == Join(parts[1..])[i - k];
          assert !DoubleAt(Join(parts[1..]), i - k - 1);
        }
      }
    }
  }

  lemma {:induction false} SplitPrefix(part: string, rest: string, sep: char)
    requires sep !in part
    ensures Split(part + [sep] + rest, sep) == [part] + Split(rest, sep)
    decreases |part|
  {
    var s := part + [sep] + rest;
    if part == "" {
      assert s[0] == sep && s[1..] == rest;
    } else {
      assert s[0] == part[0] && part[0] in part;
      assert s[1..] == part[1..] + [sep] + rest;
      SplitPrefix(part[1..], rest, sep);
      assert [part[0]] + part[1..] == part;
    }
  }

  lemma {:induction false} SplitWhole(part: string, sep: char)
    requires sep !in part
    ensures Split(part, sep) == [part]
  {
    if part != "" {
      assert part[0] in part;
      SplitWhole(part[1..], sep);
      assert [part[0]] + part[1..] == part;
    }
  }

  lemma {:induction false} SplitJoin(parts: seq<string>)
    requires ColonFree(parts) && parts != []
    ensures Split(Join(parts), ':') == parts
    decreases |parts|
  {
    if |parts| == 1 {
      SplitWhole(parts[0], ':');
    } else {
      SplitJoin(parts[1..]);
      SplitPrefix(parts[0], Join(parts[1..]), ':');
      assert [parts[0]] + parts[1..] == parts;
    }
  }

  lemma {:induction false} PartsOfJoin(parts: seq<string>)
    requires ColonFree(parts)
    ensures PartsOf(Join(parts)) == parts
  {
    if parts != [] {
      JoinIsTidy(parts);
      SplitJoin(parts);
    }
  }

  lemma {:induction false} SplitDoubleTidy(s: string)
    requires Tidy(s)
    ensures SplitDouble(s) == [s]
  {
  }

  lemma {:induction false} SplitDoublePair(left: string, right: string)
    requires Tidy(left) && Tidy(right)
    ensures SplitDouble(left + "::" + right) == [left, right]
  {
    var s := left + "::" + right;
    var k := |left|;
    assert DoubleAt(s, k);
    forall j | 0 <= j < k ensures !DoubleAt(s, j) {
      if j + 1 < k {
        assert !DoubleAt(left, j);
      }
    }
    var i := FirstDouble(s, 0);
    assert i == k;
    assert s[..k] == left && s[k + 2..] == right;
    SplitDoubleTidy(right);
  }

  lemma HexGroupsAreColonFree(groups: seq<nat>)
    ensures ColonFree(HexGroups(groups))
  {
    var texts := HexGroups(groups);
    forall i | 0 <= i < |texts| ensures texts[i] != "" && ':' !in texts[i] {
      assert forall c | c in Hex(groups[i]) :: IsHexDigit(c);
    }
  }

  ghost predicate Groups(groups: seq<nat>) {
    forall i | 0 <= i < |groups| :: groups[i] < 65536
  }

  lemma {:induction false} HexGroupsParse(groups: seq<nat>)
    requires Groups(groups)
    ensures AllGroups(HexGroups(groups))
    ensures GroupValues(HexGroups(groups)) == groups
    decreases |groups|
  {
    forall i | 0 <= i < |groups| ensures IsGroup(HexGroups(groups)[i]) {
      HexIsGroup(groups[i]);
    }
    if groups != [] {
      HexRoundTrip(groups[0]);
      HexGroupsParse(groups[1..]);
    }
  }

  lemma {:induction false} CombineValues(left: seq<string>, right: seq<string>, a: seq<nat>, b: seq<nat>, split: bool)
    requires AllGroups(left) && AllGroups(right) && GroupValues(left) == a && GroupValues(right) == b
    requires if split then |left| + |right| <= 7 else |left| + |right| == 8
    ensures |left| == |a| && |right| == |b| && Combine(left, right, split) == Some(a + Zeros(8 - |a| - |b|) + b)
  {
  }

  lemma {:induction false} CombineHex(left: seq<nat>, right: seq<nat>, split: bool)
    requires Groups(left) && Groups(right) && (if split then |left| + |right| <= 7 else |left| + |right| == 8)
    ensures Combine(HexGroups(left), HexGroups(right), split) == Some(left + Zeros(8 - |left| - |right|) + right)
  {
    HexGroupsParse(left);
    HexGroupsParse(right);
    CombineValues(HexGroups(left), HexGroups(right), left, right, split);
  }

  lemma {:induction false} ParsePlain(groups: seq<nat>)
    requires |groups| == 8 && Groups(groups)
    ensures ParseNormalized(Join(HexGroups(groups))) == Some(groups)
  {
    var parts := HexGroups(groups);
    HexGroupsAreColonFree(groups);
    JoinIsTidy(parts);
    SplitDoubleTidy(Join(parts));
    PartsOfJoin(parts);
    CombineHex(groups, [], false);
    assert HexGroups([]) == [];
    assert groups + Zeros(0) + [] == groups;
  }

  lemma {:induction false} ParseCompressed(left: seq<nat>, right: seq<nat>)
    requires |left| + |right| <= 7 && Groups(left) && Groups(right)
    ensures ParseNormalized(Join(HexGroups(left)) + "::" + Join(HexGroups(right)))
            == Some(left + Zeros(8 - |left| - |right|) + right)
  {
    var a, b := HexGroups(left), HexGroups(right);
    HexGroupsAreColonFree(left);
    HexGroupsAreColonFree(right);
    JoinIsTidy(a);
    JoinIsTidy(b);
    SplitDoublePair(Join(a), Join(b));
    PartsOfJoin(a);
    PartsOfJoin(b);
    CombineHex(left, right, true);
  }

  /** Formatted text holds hexadecimal digits and colons only. */
  ghost predicate Plain(s: string) {
    forall i | 0 <= i < |s| :: IsHexDigit(s[i]) || s[i] == ':'
  }

  lemma {:induction false} JoinIsPlain(groups: seq<nat>)
    ensures Plain(Join(HexGroups(groups)))
    decreases |groups|
  {
    if |groups| > 1 {
      JoinIsPlain(groups[1..]);
    }
  }

  lemma {:induction false} PlainParses(text: string, dotted: Dotted)
    requires Plain(text)
    ensures ParseIpv6Groups(text, dotted) == ParseNormalized(text)
  {
    assert Lower(text) == text;
    assert forall i | 0 <= i < |text| :: text[i] != '.';
  }

  lemma {:induction false} ZerosFill(groups: seq<nat>, start: int, length: nat)
    requires ZeroRun(groups, start, length)
    ensures groups[..start] + Zeros(length) + groups[start + length..] == groups
  {
  }

  lemma {:induction false} CompressedParses(groups: seq<nat>, start: int, length: nat)
    requires |groups| == 8 && Groups(groups) && ZeroRun(groups, start, length)
    ensures ParseNormalized(Compressed(groups, start, length)) == Some(groups)
  {
    ZerosFill(groups, start, length);
    ParseCompressed(groups[..start], groups[start + length..]);
  }

  /** Whatever zero run is compressed, reading the text back gives the same eight groups. */
  lemma {:induction false} FormatParses(groups: seq<nat>, start: int, length: nat, dotted: Dotted)
    requires |groups| == 8 && Groups(groups)
    requires length > 0 ==> ZeroRun(groups, start, length)
    ensures ParseIpv6Groups(Compressed(groups, start, length), dotted) == Some(groups)
  {
    CompressedIsPlain(groups, start, length);
    PlainParses(Compressed(groups, start, length), dotted);
    if length == 0 {
      ParsePlain(groups);
    } else {
      CompressedParses(groups, start, length);
    }
  }

  lemma {:induction false} CompressedIsPlain(groups: seq<nat>, start: int, length: nat)
    requires length > 0 ==> 0 <= start && start + length <= |groups|
    ensures Plain(Compressed(groups, start, length))
  {
    if length == 0 {
      JoinIsPlain(groups);
    } else {
      JoinIsPlain(groups[..start]);
      JoinIsPlain(groups[start + length..]);
    }
  }

  // -------------------------------------------------------------- dotted tails

  lemma {:induction false} TailOf(prefix: string, tail: string)
    requires ':' !in tail
    ensures TailStart(prefix + ":" + tail) == |prefix| + 1
    decreases |tail|
  {
    var s := prefix + ":" + tail;
    if tail != "" {
      var shorter := tail[..|tail| - 1];
      assert tail[|tail| - 1] in tail && s[|s| - 1] == tail[|tail| - 1];
      assert s[..|s| - 1] == prefix + ":" + shorter;
      TailOf(prefix, shorter);
    }
  }

  lemma {:induction false} LowerText(s: string)
    requires forall i | 0 <= i < |s| :: !('A' <= s[i] <= 'Z')
    ensures Lower(s) == s
  {
  }

  /** The text that a dotted tail is rewritten to. */
  function Rewritten(head: string, value: nat): string {
    head + ":" + Hex(value / 65536) + ":" + Hex(value % 65536)
  }

  lemma {:induction false} DottedTail(text: string, t: nat, dotted: Dotted)
    requires Lower(text) == text && TailStart(text) == t && t > 0 && '.' in text[t..] && dotted(text[t..]).Some?
    ensures ParseIpv6Groups(text, dotted) == ParseNormalized(Rewritten(text[..t - 1], dotted(text[t..]).value))
  {
  }

  lemma {:induction false} HeadAndTail(head: string, tail: string)
    requires ':' !in tail && Plain(head) && forall i | 0 <= i < |tail| :: !('A' <= tail[i] <= 'Z')
    ensures var text := head + ":" + tail;
            && Lower(text) == text && TailStart(text) == |head| + 1
            && text[|head| + 1..] == tail && text[..|head|] == head
  {
    LowerText(head + ":" + tail);
    TailOf(head, tail);
  }

  lemma {:induction false} RewrittenIsPlain(head: string, value: nat)
    requires Plain(head)
    ensures Plain(Rewritten(head, value))
  {
  }

  /** A dotted IPv4 tail stands for the two groups that hold its upper and lower halves. */
  lemma {:induction false} DottedTailIsTwoGroups(head: string, tail: string, text: string, value: nat, dotted: Dotted)
    requires Plain(head) && ':' !in tail && '.' in tail && forall i | 0 <= i < |tail| :: !('A' <= tail[i] <= 'Z')
    requires text == head + ":" + tail && dotted(tail) == Some(value)
    ensures ParseIpv6Groups(text, dotted) == ParseIpv6Groups(Rewritten(head, value), dotted)
  {
    HeadAndTail(head, tail);
    DottedTail(text, |head| + 1, dotted);
    RewrittenIsPlain(head, value);
    PlainParses(Rewritten(head, value), dotted);
  }

  // ------------------------------------------------------------- the formatter

  /**
   The scanning loop. The text it builds compresses the run that RFC 5952 asks
   for, and reads back as the same groups.
   */
  method FormatIpv6(groups: seq<nat>) returns (text: string, bestStart: int, bestLength: nat)
    ensures BestRun(groups, bestStart, bestLength)
    ensures text == Compressed(groups, bestStart, bestLength)
    ensures |groups| == 8 && Groups(groups) ==> forall dotted: Dotted :: ParseIpv6Groups(text, dotted) == Some(groups)
  {
    bestStart, bestLength := -1, 0;
    var start := 0;
    while start < |groups|
      invariant 0 <= start <= |groups|
      invariant bestLength == 0 ==> bestStart == -1
      invariant bestLength > 0 ==>
                bestLength >= 2 && ZeroRun(groups, bestStart, bestLength) && bestStart + bestLength <= start
      invariant start == 0 || start == |groups| || groups[start - 1] != 0 || groups[start] != 0
      invariant forall s, n | n >= 2 && ZeroRun(groups, s, n) && s < start ::
                  n < bestLength || (n == bestLength && bestStart <= s)
    {
      if groups[start] != 0 {
        assert forall s, n | ZeroRun(groups, s, n) :: s != start;
        start := start + 1;
      } else {
        var end := start;
        while end < |groups| && groups[end] == 0
          invariant start <= end <= |groups|
          invariant forall i | start <= i < end :: groups[i] == 0
          decreases |groups| - end
        {
          end := end + 1;
        }
        assert forall s, n | ZeroRun(groups, s, n) && start <= s < end :: s + n <= end;
        if end - start > bestLength && end - start >= 2 {
          bestStart, bestLength := start, end - start;
        }
        start := end;
      }
    }
    if bestStart < 0 {
      text := Join(HexGroups(groups));
    } else {
      var left := Join(HexGroups(groups[..bestStart]));
      var right := Join(HexGroups(groups[bestStart + bestLength..]));
      if left == "" && right == "" {
        text := "::";
      } else if left == "" {
        text := "::" + right;
      } else if right == "" {
        text := left + "::";
      } else {
        text := left + "::" + right;
      }
      assert text == left + "::" + right;
    }
    if |groups| == 8 && Groups(groups) {
      forall dotted: Dotted ensures ParseIpv6Groups(text, dotted) == Some(groups) {
        FormatParses(groups, bestStart, bestLength, dotted);
      }
    }
  }
}
