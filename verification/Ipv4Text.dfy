/** Dotted IPv4 addresses as text: four decimal octets. */
module Ipv4Text {
  import opened Options
  import opened Ipv6Text

  predicate IsDigit(c: char) {
    '0' <= c <= '9'
  }

  predicate AllDigits(s: string) {
    forall i | 0 <= i < |s| :: IsDigit(s[i])
  }

  function Decimal(n: nat): (s: string)
    ensures s != "" && AllDigits(s)
  {
    if n < 10 then [HexDigit(n)] else Decimal(n / 10) + [HexDigit(n % 10)]
  }

  function DecimalValue(s: string): nat
    requires AllDigits(s)
  {
    if s == "" then 0 else DecimalValue(s[..|s| - 1]) * 10 + DigitValue(s[|s| - 1])
  }

  lemma {:induction false} DecimalRoundTrip(n: nat)
    ensures DecimalValue(Decimal(n)) == n
  {
    if n < 10 {
      DigitRoundTrip(n);
      assert [HexDigit(n)][..0] == "";
    } else {
      DecimalRoundTrip(n / 10);
      DigitRoundTrip(n % 10);
      assert (Decimal(n / 10) + [HexDigit(n % 10)])[..|Decimal(n / 10)|] == Decimal(n / 10);
    }
  }

  // ------------------------------------------------------------------- octets

  ghost predicate Octets(octets: seq<nat>) {
    |octets| == 4 && forall i | 0 <= i < 4 :: octets[i] < 256
  }

  function OctetsValue(octets: seq<nat>): nat
    requires |octets| == 4
  {
    ((octets[0] * 256 + octets[1]) * 256 + octets[2]) * 256 + octets[3]
  }

  function OctetsOf(value: nat): (octets: seq<nat>)
    ensures Octets(octets)
  {
    [value / 256 / 256 / 256 % 256, value / 256 / 256 % 256, value / 256 % 256, value % 256]
  }

  lemma OctetsRoundTrip(octets: seq<nat>)
    requires Octets(octets)
    ensures OctetsOf(OctetsValue(octets)) == octets && OctetsValue(octets) < 0x1_0000_0000
  {
    var high := octets[0] * 256 + octets[1];
    var middle := high * 256 + octets[2];
    assert (middle * 256 + octets[3]) / 256 == middle;
    assert middle / 256 == high && high / 256 == octets[0];
  }

  lemma ValueRoundTrip(value: nat)
    requires value < 0x1_0000_0000
    ensures OctetsValue(OctetsOf(value)) == value
  {
    var high := value / 256 / 256;
    assert high / 256 < 256;
  }

  /** The octets in decimal, with dots between them. */
  function DottedText(octets: seq<nat>): string
    requires |octets| == 4
  {
    Decimal(octets[0]) + "." + (Decimal(octets[1]) + "." + (Decimal(octets[2]) + "." + Decimal(octets[3])))
  }

  lemma NoDotInside(s: string)
    requires AllDigits(s)
    ensures '.' !in s && ':' !in s
  {
  }

  lemma DottedSplits(octets: seq<nat>)
    requires |octets| == 4
    ensures Split(DottedText(octets), '.')
            == [Decimal(octets[0]), Decimal(octets[1]), Decimal(octets[2]), Decimal(octets[3])]
  {
    var a, b, c, d := Decimal(octets[0]), Decimal(octets[1]), Decimal(octets[2]), Decimal(octets[3]);
    NoDotInside(a);
    NoDotInside(b);
    NoDotInside(c);
    NoDotInside(d);
    SplitWhole(d, '.');
    SplitPrefix(c, d, '.');
    SplitPrefix(b, c + "." + d, '.');
    SplitPrefix(a, b + "." + (c + "." + d), '.');
  }

  /** The text tells the octets. */
  lemma DottedIsInjective(a: seq<nat>, b: seq<nat>)
    requires |a| == 4 && |b| == 4 && DottedText(a) == DottedText(b)
    ensures a == b
  {
    DottedSplits(a);
    DottedSplits(b);
    forall i | 0 <= i < 4 ensures a[i] == b[i] {
      assert Decimal(a[i]) == Split(DottedText(a), '.')[i] == Decimal(b[i]);
      DecimalRoundTrip(a[i]);
      DecimalRoundTrip(b[i]);
    }
  }

  lemma DottedHasNoColon(octets: seq<nat>)
    requires |octets| == 4
    ensures ':' !in DottedText(octets)
  {
    NoDotInside(Decimal(octets[0]));
    NoDotInside(Decimal(octets[1]));
    NoDotInside(Decimal(octets[2]));
    NoDotInside(Decimal(octets[3]));
  }

  // ------------------------------------------------------------------ reading

  predicate IsOctet(s: string) {
    1 <= |s| <= 3 && AllDigits(s) && DecimalValue(s) < 256
  }

  predicate IsDotted(text: string) {
    var parts := Split(text, '.');
    |parts| == 4 && IsOctet(parts[0]) && IsOctet(parts[1]) && IsOctet(parts[2]) && IsOctet(parts[3])
  }

  function DottedOctets(text: string): (octets: seq<nat>)
    requires IsDotted(text)
    ensures Octets(octets)
  {
    var parts := Split(text, '.');
    [DecimalValue(parts[0]), DecimalValue(parts[1]), DecimalValue(parts[2]), DecimalValue(parts[3])]
  }

  /** Reading what was formatted gives the octets back. */
  lemma DottedRoundTrip(octets: seq<nat>)
    requires Octets(octets)
    ensures IsDotted(DottedText(octets)) && DottedOctets(DottedText(octets)) == octets
  {
    DottedSplits(octets);
    forall i | 0 <= i < 4 ensures DecimalValue(Decimal(octets[i])) == octets[i] && IsOctet(Decimal(octets[i])) {
      DecimalRoundTrip(octets[i]);
      OctetIsShort(octets[i]);
    }
  }

  lemma OctetIsShort(n: nat)
    requires n < 256
    ensures |Decimal(n)| <= 3
  {
    if n >= 100 {
      assert |Decimal(n)| == |Decimal(n / 10 / 10)| + 2;
    }
  }
}
