/** Trusted proxies as CIDR blocks, and the client address behind a chain of them. */
module ClientAddress {
  import opened Options
  import opened Ipv4Text
  import opened Ipv6Text

  datatype Family = V4 | V6

  /** A parsed address; texts of mapped IPv4 addresses have already become IPv4. */
  datatype Address = Address(family: Family, value: nat)

  datatype Cidr = Cidr(family: Family, network: nat, prefix: nat)

  const MAX_FORWARDED_BYTES: nat := 2048

  function Width(family: Family): nat {
    if family == V4 then 32 else 128
  }

  // ------------------------------------------------------------- bits and masks

  function Power(n: nat): (p: nat)
    ensures p >= 1
  {
    if n == 0 then 1 else 2 * Power(n - 1)
  }

  /** The bitwise and of two non-negative integers. */
  function And(a: nat, b: nat): nat {
    if a == 0 || b == 0 then 0 else 2 * And(a / 2, b / 2) + (a % 2) * (b % 2)
  }

  function PrefixMask(bits: nat, prefix: nat): nat
    requires prefix <= bits
  {
    if prefix == 0 then 0 else (Power(prefix) - 1) * Power(bits - prefix)
  }

  const IPV4_SIZE: nat := 0x1_0000_0000
  const IPV6_SIZE: nat := 0x1_0000_0000_0000_0000_0000_0000_0000_0000

  predicate InRange(a: Address) {
    a.value < if a.family == V4 then IPV4_SIZE else IPV6_SIZE
  }

  predicate IsMapped(value: nat) {
    value / IPV4_SIZE == 0xffff
  }

  function ParseCidr(address: Address, prefix: nat): Option<Cidr> {
    if address.family == V6 && IsMapped(address.value) then
      if prefix < 96 || prefix > 128 then None
      else Some(Cidr(V4, And(And(address.value, 0xffff_ffff), PrefixMask(32, prefix - 96)), prefix - 96))
    else
      var bits := Width(address.family);
      if prefix > bits then None
      else Some(Cidr(address.family, And(address.value, PrefixMask(bits, prefix)), prefix))
  }

  predicate Matches(address: Address, network: Cidr)
    requires network.prefix <= Width(network.family)
  {
    && network.family == address.family
    && And(address.value, PrefixMask(Width(address.family), network.prefix)) == network.network
  }

  predicate WellFormed(networks: seq<Cidr>) {
    forall i | 0 <= i < |networks| :: networks[i].prefix <= Width(networks[i].family)
  }

  predicate IsTrusted(address: Address, networks: seq<Cidr>)
    requires WellFormed(networks)
  {
    exists i | 0 <= i < |networks| :: Matches(address, networks[i])
  }

  // ---------------------------------------------------------------- arithmetic

  lemma Distribute(a: int, b: int, d: int)
    ensures (a - b) * d == a * d - b * d
  {
  }

  lemma AtLeastOnce(k: int, d: nat)
    requires k >= 1
    ensures k * d >= d
  {
    assert k * d == (k - 1) * d + d;
  }

  lemma QuotientIsUnique(p: int, q: int, d: nat, r: nat, s: nat)
    requires p * d + s == q * d + r && r < d && s < d
    ensures p == q
  {
    if p < q {
      Distribute(q, p, d);
      AtLeastOnce(q - p, d);
    } else if p > q {
      Distribute(p, q, d);
      AtLeastOnce(p - q, d);
    }
  }

  lemma DivisionIsUnique(v: nat, d: nat, q: nat, r: nat)
    requires d > 0 && v == q * d + r && r < d
    ensures v / d == q && v % d == r
  {
    assert v == v / d * d + v % d;
    QuotientIsUnique(v / d, q, d, r, v % d);
  }

  lemma ModDoubles(v: nat, d: nat)
    requires d > 0
    ensures v % (2 * d) == 2 * ((v / 2) % d) + v % 2
  {
    var q, r := v / 2 / d, (v / 2) % d;
    assert v / 2 == q * d + r;
    assert q * (2 * d) == 2 * (q * d);
    DivisionIsUnique(v, 2 * d, q, 2 * r + v % 2);
  }

  lemma {:induction false} PowerSplits(a: nat, b: nat)
    ensures Power(a + b) == Power(a) * Power(b)
    decreases a
  {
    if a > 0 {
      PowerSplits(a - 1, b);
      assert Power(a + b) == 2 * Power(a - 1 + b);
    }
  }

  lemma {:induction false} PowerSquares(n: nat, p: nat)
    requires Power(n) == p
    ensures Power(2 * n) == p * p
  {
    PowerSplits(n, n);
  }

  lemma {:induction false} PowersOfTwo()
    ensures Power(16) == 65536 && Power(32) == IPV4_SIZE && Power(128) == IPV6_SIZE
  {
    PowerSquares(0, 1);
    PowerSquares(1, 2);
    PowerSquares(2, 4);
    PowerSquares(4, 16);
    PowerSquares(8, 256);
    PowerSquares(16, 65536);
    PowerSquares(32, IPV4_SIZE);
    PowerSquares(64, IPV4_SIZE * IPV4_SIZE);
  }

  lemma {:induction false} AndOnes(v: nat, p: nat)
    requires v < Power(p)
    ensures And(v, Power(p) - 1) == v
  {
    if p > 0 && v > 0 {
      AndOnes(v / 2, p - 1);
      assert (Power(p) - 1) / 2 == Power(p - 1) - 1;
    }
  }

  lemma {:induction false} AndLowBits(v: nat, k: nat)
    ensures And(v, Power(k) - 1) == v % Power(k)
  {
    if k > 0 {
      AndLowBits(v / 2, k - 1);
      ModDoubles(v, Power(k - 1));
      assert (Power(k) - 1) / 2 == Power(k - 1) - 1;
    }
  }

  lemma {:induction false} AndEven(v: nat, m: nat)
    ensures And(v, 2 * m) == 2 * And(v / 2, m)
  {
    if v != 0 && m != 0 {
      assert (2 * m) / 2 == m && (2 * m) % 2 == 0;
    }
  }

  lemma {:induction false} MaskDoubles(high: int, k: nat)
    requires k > 0
    ensures high * Power(k) == 2 * (high * Power(k - 1))
  {
    assert Power(k) == 2 * Power(k - 1);
  }

  /** Masking with a prefix clears exactly the low bits. */
  lemma {:induction false} AndMask(v: nat, p: nat, k: nat)
    requires v < Power(p + k)
    ensures And(v, (Power(p) - 1) * Power(k)) == v - v % Power(k)
    decreases k
  {
    if k == 0 {
      AndOnes(v, p);
    } else {
      var m := (Power(p) - 1) * Power(k - 1);
      MaskDoubles(Power(p) - 1, k);
      AndEven(v, m);
      AndMask(v / 2, p, k - 1);
      ModDoubles(v, Power(k - 1));
    }
  }

  lemma {:induction false} PrefixMaskClears(v: nat, bits: nat, prefix: nat)
    requires prefix <= bits && v < Power(bits)
    ensures And(v, PrefixMask(bits, prefix)) == v - v % Power(bits - prefix)
  {
    if prefix > 0 {
      AndMask(v, prefix, bits - prefix);
    } else {
      DivisionIsUnique(v, Power(bits), 0, v);
    }
  }

  // ---------------------------------------------------------------- membership

  /** The lowest address of the block of size d that holds v. */
  function Lowest(v: nat, d: nat): nat
    requires d > 0
  {
    v - v % d
  }

  lemma SameBlock(v: nat, n: nat, d: nat)
    requires d > 0
    ensures Lowest(v, d) == Lowest(n, d) <==> Lowest(n, d) <= v < Lowest(n, d) + d
  {
    var q := n / d;
    assert Lowest(n, d) == q * d;
    if q * d <= v < q * d + d {
      DivisionIsUnique(v, d, q, v - q * d);
    }
  }

  /** The block that a CIDR denotes, as an interval of addresses. */
  ghost predicate InBlock(address: Address, base: Address, prefix: int) {
    && address.family == base.family && 0 <= prefix <= Width(base.family)
    && var size := Power(Width(base.family) - prefix);
       Lowest(base.value, size) <= address.value < Lowest(base.value, size) + size
  }

  /** An IPv4-mapped IPv6 base with its prefix stands for the IPv4 base with 96 less. */
  function Unmapped(base: Address): Address {
    if base.family == V6 && IsMapped(base.value) then Address(V4, base.value % IPV4_SIZE) else base
  }

  function EffectivePrefix(base: Address, prefix: int): int {
    if base.family == V6 && IsMapped(base.value) then prefix - 96 else prefix
  }

  lemma {:induction false} InRangeIsBelowPower(a: Address)
    requires InRange(a)
    ensures a.value < Power(Width(a.family))
  {
    PowersOfTwo();
  }

  /** Two numbers have the same masked prefix exactly when one lies in the other's block. */
  lemma {:induction false} SamePrefix(v: nat, n: nat, bits: nat, prefix: nat)
    requires prefix <= bits && v < Power(bits) && n < Power(bits)
    ensures var size := Power(bits - prefix);
            And(v, PrefixMask(bits, prefix)) == And(n, PrefixMask(bits, prefix))
            <==> Lowest(n, size) <= v < Lowest(n, size) + size
  {
    PrefixMaskClears(v, bits, prefix);
    PrefixMaskClears(n, bits, prefix);
    SameBlock(v, n, Power(bits - prefix));
  }

  lemma {:induction false} ParsedCidrMatches(address: Address, base: Address, prefix: nat)
    requires InRange(address) && InRange(base) && prefix <= Width(base.family)
    requires !(base.family == V6 && IsMapped(base.value))
    ensures ParseCidr(base, prefix).Some?
    ensures ParseCidr(base, prefix).value.prefix == prefix && ParseCidr(base, prefix).value.family == base.family
    ensures Matches(address, ParseCidr(base, prefix).value) <==> InBlock(address, base, prefix)
  {
    if address.family == base.family {
      InRangeIsBelowPower(address);
      InRangeIsBelowPower(base);
      SamePrefix(address.value, base.value, Width(base.family), prefix);
    }
  }

  lemma {:induction false} LowWord(value: nat, mapped: nat, word: nat)
    requires value == mapped * IPV4_SIZE + word && word < IPV4_SIZE
    ensures And(value, IPV4_SIZE - 1) == word && value / IPV4_SIZE == mapped
  {
    PowersOfTwo();
    AndLowBits(value, 32);
    DivisionIsUnique(value, IPV4_SIZE, mapped, word);
  }

  /** A block is accepted exactly with a prefix that its family has; a mapped one is of the IPv4 family. */
  lemma CidrAnswers(base: Address, prefix: nat)
    ensures ParseCidr(base, prefix).Some?
            <==> 0 <= EffectivePrefix(base, prefix) <= if Unmapped(base).family == V4 then 32 else 128
  {
  }

  /** A mapped /(96+p) block is parsed into the same network as the IPv4 /p block. */
  lemma {:induction false} MappedCidrIsIpv4(value: nat, prefix: nat)
    requires value < IPV4_SIZE
    ensures ParseCidr(Address(V6, 0xffff * IPV4_SIZE + value), 96 + prefix) == ParseCidr(Address(V4, value), prefix)
  {
    LowWord(0xffff * IPV4_SIZE + value, 0xffff, value);
  }

  lemma ModThroughMultiple(high: nat, m: nat, d: nat, v: nat)
    requires d > 0
    ensures (high * (m * d) + v) % d == v % d
  {
    assert high * (m * d) == (high * m) * d;
    assert v == v / d * d + v % d;
    assert (high * m) * d + v / d * d == (high * m + v / d) * d;
    DivisionIsUnique(high * (m * d) + v, d, high * m + v / d, v % d);
  }

  lemma LowestShifts(high: nat, m: nat, d: nat, v: nat)
    requires d > 0
    ensures Lowest(high * (m * d) + v, d) == high * (m * d) + Lowest(v, d)
  {
    ModThroughMultiple(high, m, d, v);
  }

  /** The mapped block as a set of IPv6 addresses is the image of the IPv4 block. */
  lemma {:induction false} MappedBlockIsIpv4Block(value: nat, prefix: nat, other: nat, mapped: nat)
    requires value < IPV4_SIZE && prefix <= 32 && mapped == 0xffff * IPV4_SIZE
    ensures InBlock(Address(V6, other), Address(V6, mapped + value), 96 + prefix)
            <==> other >= mapped && InBlock(Address(V4, other - mapped), Address(V4, value), prefix)
  {
    MappedLowest(0xffff, value, prefix);
  }

  lemma {:induction false} MappedLowest(high: nat, value: nat, prefix: nat)
    requires prefix <= 32
    ensures Lowest(high * IPV4_SIZE + value, Power(32 - prefix)) == high * IPV4_SIZE + Lowest(value, Power(32 - prefix))
  {
    PowersOfTwo();
    PowerSplits(prefix, 32 - prefix);
    LowestShifts(high, Power(prefix), Power(32 - prefix), value);
  }

  /**
   Trust is interval membership: an address is trusted exactly when one of the
   configured blocks, mapped ones read as IPv4, contains it.
   */
  lemma {:induction false} TrustedIsMembership(
    address: Address, bases: seq<Address>, prefixes: seq<nat>, networks: seq<Cidr>)
    requires InRange(address) && |bases| == |prefixes| == |networks|
    requires forall i | 0 <= i < |bases| :: InRange(bases[i]) && ParseCidr(bases[i], prefixes[i]) == Some(networks[i])
    ensures WellFormed(networks)
    ensures IsTrusted(address, networks) <==>
              exists i | 0 <= i < |bases| ::
                InBlock(address, Unmapped(bases[i]), EffectivePrefix(bases[i], prefixes[i]))
  {
    forall i | 0 <= i < |bases|
      ensures networks[i].prefix <= Width(networks[i].family)
      ensures Matches(address, networks[i])
              <==> InBlock(address, Unmapped(bases[i]), EffectivePrefix(bases[i], prefixes[i]))
    {
      OneNetwork(address, bases[i], prefixes[i]);
    }
  }

  lemma {:induction false} OneNetwork(address: Address, base: Address, prefix: nat)
    requires InRange(address) && InRange(base) && ParseCidr(base, prefix).Some?
    ensures var network := ParseCidr(base, prefix).value;
            && network.prefix <= Width(network.family)
            && (Matches(address, network) <==> InBlock(address, Unmapped(base), EffectivePrefix(base, prefix)))
  {
    if base.family == V6 && IsMapped(base.value) {
      MappedNetwork(address, base.value, prefix - 96);
    } else {
      ParsedCidrMatches(address, base, prefix);
    }
  }

  lemma {:induction false} MappedNetwork(address: Address, value: nat, prefix: nat)
    requires InRange(address) && IsMapped(value) && prefix <= 32
    ensures var network := ParseCidr(Address(V6, value), 96 + prefix);
            && network.Some? && network.value.prefix <= Width(network.value.family)
            && (Matches(address, network.value) <==> InBlock(address, Address(V4, value % IPV4_SIZE), prefix))
  {
    var low := value % IPV4_SIZE;
    assert value == 0xffff * IPV4_SIZE + low;
    MappedCidrIsIpv4(low, prefix);
    ParsedCidrMatches(address, Address(V4, low), prefix);
  }

  // ------------------------------------------------------------ groups as a number

  /** The number that a row of sixteen-bit groups denotes. */
  function ValueOf(groups: seq<nat>): nat {
    if groups == [] then 0 else ValueOf(groups[..|groups| - 1]) * 65536 + groups[|groups| - 1]
  }

  lemma Shifts(base: nat, p: nat, high: nat, low: nat)
    requires high < p && low < base
    ensures high * base + low < base * p
  {
    assert (high + 1) * base <= p * base;
  }

  lemma {:induction false} ValueIsInRange(groups: seq<nat>)
    requires Groups(groups)
    ensures ValueOf(groups) < Power(16 * |groups|)
  {
    if groups != [] {
      var rest := groups[..|groups| - 1];
      ValueIsInRange(rest);
      PowersOfTwo();
      PowerSplits(16, 16 * |rest|);
      assert 16 * |groups| == 16 + 16 * |rest|;
      Shifts(Power(16), Power(16 * |rest|), ValueOf(rest), groups[|rest|]);
    }
  }

  lemma {:induction false} ZeroValue(groups: seq<nat>)
    ensures ValueOf(groups) == 0 <==> forall i | 0 <= i < |groups| :: groups[i] == 0
  {
    if groups != [] {
      ZeroValue(groups[..|groups| - 1]);
    }
  }

  /** The mapped addresses are those whose groups are five zeros, ffff, and the IPv4 address. */
  lemma {:induction false} MappedGroups(groups: seq<nat>)
    requires |groups| == 8 && Groups(groups)
    ensures IsMapped(ValueOf(groups)) <==> (forall i | 0 <= i < 5 :: groups[i] == 0) && groups[5] == 0xffff
    ensures ValueOf(groups) % IPV4_SIZE == groups[6] * 65536 + groups[7]
  {
    var top := groups[..6];
    assert groups[..7][..6] == top && groups[..7][6] == groups[6];
    var low := groups[6] * 65536 + groups[7];
    assert ValueOf(groups) == ValueOf(groups[..7]) * 65536 + groups[7];
    assert ValueOf(groups[..7]) == ValueOf(top) * 65536 + groups[6];
    DivisionIsUnique(ValueOf(groups), IPV4_SIZE, ValueOf(top), low);
    assert top[..5] == groups[..5];
    assert ValueOf(top) == ValueOf(groups[..5]) * 65536 + groups[5];
    ZeroValue(groups[..5]);
  }

  lemma {:induction false} ValueIsInjective(a: seq<nat>, b: seq<nat>)
    requires |a| == |b| && Groups(a) && Groups(b) && ValueOf(a) == ValueOf(b)
    ensures a == b
  {
    if a != [] {
      var last := |a| - 1;
      QuotientIsUnique(ValueOf(a[..last]), ValueOf(b[..last]), 65536, b[last], a[last]);
      ValueIsInjective(a[..last], b[..last]);
      assert a == a[..last] + [a[last]] && b == b[..last] + [b[last]];
    }
  }

  // ------------------------------------------------------------ addresses as text

  /** The platform's check of a text: an address of which family, or none. Its IPv4 addresses are dotted octets. */
  type Platform = check: string -> Option<Family> | forall text :: check(text) == Some(V4) ==> IsDotted(text)
    witness (text: string) => None

  function DottedBy(platform: Platform): Dotted {
    (text: string) => if platform(text) == Some(V4) then Some(OctetsValue(DottedOctets(text))) else None
  }

  /** The address that a text denotes, if any; mapped IPv4 addresses are IPv4. */
  function Denoted(platform: Platform, text: string): Option<Address> {
    match platform(text)
    case None => None
    case Some(V4) => Some(Address(V4, OctetsValue(DottedOctets(text))))
    case Some(V6) =>
      var groups := ParseIpv6Groups(text, DottedBy(platform));
      if groups.None? then None
      else Some(Unmapped(Address(V6, ValueOf(groups.value))))
  }

  /** The one text that stands for an address: decimal octets, or groups compressed as RFC 5952 asks. */
  ghost predicate CanonicalText(a: Address, text: string) {
    match a.family
    case V4 => text == DottedText(OctetsOf(a.value))
    case V6 => exists groups, start, length: nat :: CanonicalGroups(a.value, groups, start, length, text)
  }

  ghost predicate CanonicalGroups(value: nat, groups: seq<nat>, start: int, length: nat, text: string) {
    && |groups| == 8 && Groups(groups) && ValueOf(groups) == value
    && BestRun(groups, start, length) && text == Compressed(groups, start, length)
  }

  lemma {:induction false} CompressedHasColon(groups: seq<nat>, start: int, length: nat)
    requires |groups| == 8 && (length > 0 ==> 0 <= start && start + length <= 8)
    ensures ':' in Compressed(groups, start, length)
  {
    var text := Compressed(groups, start, length);
    if length == 0 {
      var parts := HexGroups(groups);
      assert text == parts[0] + ":" + Join(parts[1..]);
      assert text[|parts[0]|] == ':';
    } else {
      assert text[|Join(HexGroups(groups[..start]))|] == ':';
    }
  }

  lemma {:induction false} SameGroupsExactly(v: nat, w: nat, a: seq<nat>, i: int, m: nat, b: seq<nat>, j: int, n: nat,
                                             s: string, t: string)
    requires CanonicalGroups(v, a, i, m, s) && CanonicalGroups(w, b, j, n, t)
    ensures s == t <==> v == w
  {
    if s == t {
      FormatParses(a, i, m, (text: string) => None);
      FormatParses(b, j, n, (text: string) => None);
    } else if v == w {
      ValueIsInjective(a, b);
      BestRunIsUnique(a, i, m, j, n);
    }
  }

  lemma {:induction false} FamiliesDiffer(a: Address, b: Address, s: string, t: string)
    requires a.family == V4 && b.family == V6 && CanonicalText(a, s) && CanonicalText(b, t)
    ensures s != t
  {
    DottedHasNoColon(OctetsOf(a.value));
    var groups, start, length: nat :| CanonicalGroups(b.value, groups, start, length, t);
    CompressedHasColon(groups, start, length);
  }

  /** Canonical texts tell addresses apart: two of them are equal if and only if the addresses are. */
  lemma {:induction false} CanonicalTextIsExact(a: Address, b: Address, s: string, t: string)
    requires InRange(a) && InRange(b) && CanonicalText(a, s) && CanonicalText(b, t)
    ensures s == t <==> a == b
  {
    if a.family != b.family {
      if a.family == V4 {
        FamiliesDiffer(a, b, s, t);
      } else {
        FamiliesDiffer(b, a, t, s);
      }
    } else if a.family == V4 {
      ValueRoundTrip(a.value);
      ValueRoundTrip(b.value);
      if s == t {
        DottedIsInjective(OctetsOf(a.value), OctetsOf(b.value));
      }
    } else {
      var x, i, m: nat :| CanonicalGroups(a.value, x, i, m, s);
      var y, j, n: nat :| CanonicalGroups(b.value, y, j, n, t);
      SameGroupsExactly(a.value, b.value, x, i, m, y, j, n, s, t);
    }
  }

  /** A canonical text that the platform takes for its own family denotes the address it stands for. */
  lemma {:induction false} CanonicalTextReadsBack(platform: Platform, a: Address, text: string)
    requires InRange(a) && Unmapped(a) == a && CanonicalText(a, text) && platform(text) == Some(a.family)
    ensures Denoted(platform, text) == Some(a)
  {
    if a.family == V4 {
      ValueRoundTrip(a.value);
      DottedRoundTrip(OctetsOf(a.value));
    } else {
      var groups, start, length: nat :| CanonicalGroups(a.value, groups, start, length, text);
      FormatParses(groups, start, length, DottedBy(platform));
    }
  }

  lemma {:induction false} GroupTextIsSmall(text: string)
    requires IsGroup(text)
    ensures HexValue(text) < 65536
  {
    assert |text| > 1 ==> HexValue(text[..|text| - 1]) < 4096 by {
      ShortHexIsSmall(text[..|text| - 1]);
    }
    assert text[..0] == "";
  }

  lemma {:induction false} ShortHexIsSmall(text: string)
    requires AllHex(text) && |text| <= 3
    ensures HexValue(text) < 4096
    ensures |text| <= 2 ==> HexValue(text) < 256
    ensures |text| <= 1 ==> HexValue(text) < 16
  {
    if text != "" {
      ShortHexIsSmall(text[..|text| - 1]);
    }
  }

  lemma {:induction false} GroupTextsAreGroups(texts: seq<string>)
    requires AllGroups(texts)
    ensures Groups(GroupValues(texts))
  {
    if texts != [] {
      assert IsGroup(texts[0]);
      GroupTextIsSmall(texts[0]);
      GroupTextsAreGroups(texts[1..]);
    }
  }

  lemma {:induction false} CombinedGroups(left: seq<string>, right: seq<string>, split: bool)
    requires Combine(left, right, split).Some?
    ensures |Combine(left, right, split).value| == 8 && Groups(Combine(left, right, split).value)
  {
    GroupTextsAreGroups(left);
    GroupTextsAreGroups(right);
  }

  /** Whatever parses has eight sixteen-bit groups. */
  lemma {:induction false} ParsedGroups(text: string, dotted: Dotted)
    requires ParseIpv6Groups(text, dotted).Some?
    ensures |ParseIpv6Groups(text, dotted).value| == 8 && Groups(ParseIpv6Groups(text, dotted).value)
  {
    var lower := Lower(text);
    var tail := TailStart(lower);
    if '.' in lower[tail..] {
      var ipv4 := dotted(lower[tail..]).value;
      NormalizedGroups(lower[..tail - 1] + ":" + Hex(ipv4 / 65536) + ":" + Hex(ipv4 % 65536));
    } else {
      NormalizedGroups(lower);
    }
  }

  lemma {:induction false} NormalizedGroups(text: string)
    requires ParseNormalized(text).Some?
    ensures |ParseNormalized(text).value| == 8 && Groups(ParseNormalized(text).value)
  {
    var halves := SplitDouble(text);
    if |halves| == 1 {
      CombinedGroups(PartsOf(halves[0]), [], false);
    } else {
      CombinedGroups(PartsOf(halves[0]), PartsOf(halves[1]), true);
    }
  }

  lemma {:induction false} GroupsAreInRange(groups: seq<nat>)
    requires |groups| == 8 && Groups(groups)
    ensures InRange(Address(V6, ValueOf(groups))) && InRange(Unmapped(Address(V6, ValueOf(groups))))
  {
    PowersOfTwo();
    ValueIsInRange(groups);
  }

  /** A parsed address with the canonical text it is reported by. */
  datatype Parsed = Parsed(address: Address, canonical: string)

  /** The address that the text denotes, with its canonical text. */
  method ParseAddress(platform: Platform, text: string) returns (parsed: Option<Parsed>)
    ensures parsed.None? <==> Denoted(platform, text).None?
    ensures parsed.Some? ==>
              && Denoted(platform, text) == Some(parsed.value.address) && InRange(parsed.value.address)
              && CanonicalText(parsed.value.address, parsed.value.canonical)
  {
    var family := platform(text);
    if family.None? {
      return None;
    }
    if family == Some(V4) {
      var octets := DottedOctets(text);
      OctetsRoundTrip(octets);
      return Some(Parsed(Address(V4, OctetsValue(octets)), DottedText(octets)));
    }
    var groups := ParseIpv6Groups(text, DottedBy(platform));
    if groups.None? {
      return None;
    }
    ParsedGroups(text, DottedBy(platform));
    var address := Describe(groups.value);
    return Some(address);
  }

  method Describe(groups: seq<nat>) returns (parsed: Parsed)
    requires |groups| == 8 && Groups(groups)
    ensures parsed.address == Unmapped(Address(V6, ValueOf(groups))) && InRange(parsed.address)
    ensures CanonicalText(parsed.address, parsed.canonical)
  {
    GroupsAreInRange(groups);
    var value := ValueOf(groups);
    if IsMapped(value) {
      var ipv4 := value % IPV4_SIZE;
      return Parsed(Address(V4, ipv4), DottedText(OctetsOf(ipv4)));
    }
    var canonical, start, length := FormatIpv6(groups);
    assert CanonicalGroups(value, groups, start, length, canonical);
    return Parsed(Address(V6, value), canonical);
  }

  // ----------------------------------------------------------------- the chain

  function Utf8Length(s: string): nat {
    if s == "" then 0
    else
      var c := s[0] as int;
      (if c < 0x80 then 1 else if c < 0x800 then 2 else if c < 0x10000 then 3 else 4) + Utf8Length(s[1..])
  }

  /** How many characters of the text are at or above a code point. */
  ghost function CountFrom(s: string, code: int): nat {
    if s == "" then 0 else CountFrom(s[1..], code) + if s[0] as int >= code then 1 else 0
  }

  /** The bytes of a text: one for each character, and one more from 0x80, from 0x800 and from 0x10000 on. */
  lemma {:induction false} Utf8LengthIsExact(s: string)
    ensures Utf8Length(s) == |s| + CountFrom(s, 0x80) + CountFrom(s, 0x800) + CountFrom(s, 0x10000)
  {
    if s != "" {
      Utf8LengthIsExact(s[1..]);
    }
  }

  /** The comma-separated entries of the header, at least one. */
  function Entries(header: string): (entries: seq<string>)
    ensures entries != []
  {
    Split(header, ',')
  }

  /** What an entry of the header denotes once it is trimmed. */
  function AddressOf(platform: Platform, trim: string -> string, entry: string): Option<Address> {
    if trim(entry) == "" then None else Denoted(platform, trim(entry))
  }

  /** The same as a function of the entry; the trust rules are stated for any such function. */
  type Reading = string -> Option<Address>

  function ReadingOf(platform: Platform, trim: string -> string): Reading {
    (entry: string) => AddressOf(platform, trim, entry)
  }

  /** The header is read at all only from a trusted peer and within the limits. */
  predicate Heeded(peer: Address, forwarded: Option<string>, networks: seq<Cidr>, maxEntries: nat, read: Reading)
    requires WellFormed(networks)
  {
    && networks != [] && IsTrusted(peer, networks)
    && forwarded.Some? && Utf8Length(forwarded.value) <= MAX_FORWARDED_BYTES
    && |Entries(forwarded.value)| <= maxEntries
    && forall i | 0 <= i < |Entries(forwarded.value)| :: read(Entries(forwarded.value)[i]).Some?
  }

  /** Everything nearer than entry k is trusted, and entry k is not, unless it is the farthest. */
  ghost predicate Chosen(entries: seq<string>, k: int, networks: seq<Cidr>, read: Reading)
    requires WellFormed(networks)
  {
    && 0 <= k < |entries| && read(entries[k]).Some?
    && (forall j | k < j < |entries| :: read(entries[j]).Some? && IsTrusted(read(entries[j]).value, networks))
    && (k > 0 ==> !IsTrusted(read(entries[k]).value, networks))
  }

  /** Whom a request comes from, as the trust rules have it: an address, unless the peer has none. */
  ghost predicate ClientIs(
    client: Option<Address>, peer: Option<Address>, forwarded: Option<string>, networks: seq<Cidr>, maxEntries: nat,
    read: Reading)
    requires WellFormed(networks)
  {
    if peer.Some? && Heeded(peer.value, forwarded, networks, maxEntries, read)
    then exists k :: Chosen(Entries(forwarded.value), k, networks, read) && client == read(Entries(forwarded.value)[k])
    else client == peer
  }

  lemma ChosenIsUnique(entries: seq<string>, k: int, l: int, networks: seq<Cidr>, read: Reading)
    requires WellFormed(networks) && Chosen(entries, k, networks, read) && Chosen(entries, l, networks, read)
    ensures k == l
  {
  }

  /** The rules name one client. */
  lemma ClientIsUnique(
    a: Option<Address>, b: Option<Address>, peer: Option<Address>, forwarded: Option<string>, networks: seq<Cidr>,
    maxEntries: nat, read: Reading)
    requires WellFormed(networks)
    requires ClientIs(a, peer, forwarded, networks, maxEntries, read)
    requires ClientIs(b, peer, forwarded, networks, maxEntries, read)
    ensures a == b
  {
    if peer.Some? && Heeded(peer.value, forwarded, networks, maxEntries, read) {
      var entries := Entries(forwarded.value);
      var k :| Chosen(entries, k, networks, read) && a == read(entries[k]);
      var l :| Chosen(entries, l, networks, read) && b == read(entries[l]);
      ChosenIsUnique(entries, k, l, networks, read);
    }
  }

  // ----------------------------------------------------------------- identities

  /** The text that a client is known by. */
  ghost predicate Identifies(text: string, client: Option<Address>) {
    if client.None? then text == "unknown" else InRange(client.value) && CanonicalText(client.value, text)
  }

  lemma {:induction false} UnknownIsNoAddress(a: Address)
    ensures !CanonicalText(a, "unknown")
  {
    var text := "unknown";
    assert text[0] == 'u' && ':' !in text;
    if a.family == V4 {
      var octets := OctetsOf(a.value);
      assert DottedText(octets)[0] == Decimal(octets[0])[0];
      assert IsDigit(Decimal(octets[0])[0]);
    } else if exists groups, start, length: nat :: CanonicalGroups(a.value, groups, start, length, text) {
      var groups, start, length: nat :| CanonicalGroups(a.value, groups, start, length, text);
      CompressedHasColon(groups, start, length);
    }
  }

  /** Two clients are known by the same text if and only if they are the same. */
  lemma {:induction false} SameIdentityExactlyForSameClient(
    s: string, a: Option<Address>, t: string, b: Option<Address>)
    requires Identifies(s, a) && Identifies(t, b)
    ensures s == t <==> a == b
  {
    if a.Some? && b.Some? {
      CanonicalTextIsExact(a.value, b.value, s, t);
    } else if a.Some? {
      UnknownIsNoAddress(a.value);
    } else if b.Some? {
      UnknownIsNoAddress(b.value);
    }
  }

  /** The identity is that of the client whom the rules name. */
  ghost predicate Resolves(
    identity: string, peer: Option<Address>, forwarded: Option<string>, networks: seq<Cidr>, maxEntries: nat,
    read: Reading)
    requires WellFormed(networks)
  {
    exists client :: ClientIs(client, peer, forwarded, networks, maxEntries, read) && Identifies(identity, client)
  }

  /** What resolves identifies the one client that the rules name. */
  lemma ResolvedIdentity(
    identity: string, client: Option<Address>, peer: Option<Address>, forwarded: Option<string>, networks: seq<Cidr>,
    maxEntries: nat, read: Reading)
    requires WellFormed(networks) && Resolves(identity, peer, forwarded, networks, maxEntries, read)
    requires ClientIs(client, peer, forwarded, networks, maxEntries, read)
    ensures Identifies(identity, client)
  {
    var other :| ClientIs(other, peer, forwarded, networks, maxEntries, read) && Identifies(identity, other);
    ClientIsUnique(client, other, peer, forwarded, networks, maxEntries, read);
  }

  // ------------------------------------------------------------------- resolving

  ghost predicate Faithful(p: Parsed) {
    InRange(p.address) && CanonicalText(p.address, p.canonical)
  }

  /**
   `read` gives what an entry denotes and `faithful` holds the addresses with their
   canonical texts. Only the proof about one entry looks at what that means; for the
   rest of the resolver they are any function and any set.
   */
  ghost predicate ReadsBy(
    read: Reading, faithful: iset<Parsed>, platform: Platform, trim: string -> string)
  {
    && (forall entry {:trigger AddressOf(platform, trim, entry)} :: read(entry) == AddressOf(platform, trim, entry))
    && (forall p {:trigger Faithful(p)} :: p in faithful <==> Faithful(p))
  }

  method ReadEntry(
    entry: string, platform: Platform, trim: string -> string, ghost read: Reading, ghost faithful: iset<Parsed>)
    returns (parsed: Option<Parsed>)
    requires ReadsBy(read, faithful, platform, trim)
    ensures parsed.None? <==> read(entry).None?
    ensures parsed.Some? ==> read(entry) == Some(parsed.value.address) && parsed.value in faithful
  {
    assert read(entry) == AddressOf(platform, trim, entry);
    if trim(entry) == "" {
      return None;
    }
    parsed := ParseAddress(platform, trim(entry));
    assert parsed.Some? ==> Faithful(parsed.value);
  }

  /** The chain holds what its entries read as. */
  ghost predicate ChainReads(entries: seq<string>, chain: seq<Parsed>, read: Reading, faithful: iset<Parsed>) {
    && |chain| <= |entries|
    && forall i | 0 <= i < |chain| :: read(entries[i]) == Some(chain[i].address) && chain[i] in faithful
  }

  lemma ChainGrows(entries: seq<string>, chain: seq<Parsed>, next: Parsed, read: Reading, faithful: iset<Parsed>)
    requires ChainReads(entries, chain, read, faithful) && |chain| < |entries|
    requires read(entries[|chain|]) == Some(next.address) && next in faithful
    ensures ChainReads(entries, chain + [next], read, faithful)
  {
  }

  /** Every entry of the chain, or nothing if one of them is no address. */
  method ReadChain(
    entries: seq<string>, platform: Platform, trim: string -> string, ghost read: Reading,
    ghost faithful: iset<Parsed>)
    returns (chain: Option<seq<Parsed>>)
    requires ReadsBy(read, faithful, platform, trim)
    ensures chain.None? <==> exists i | 0 <= i < |entries| :: read(entries[i]).None?
    ensures chain.Some? ==>
              |chain.value| == |entries| && ChainReads(entries, chain.value, read, faithful)
  {
    var parsed: seq<Parsed> := [];
    for i := 0 to |entries|
      invariant |parsed| == i && ChainReads(entries, parsed, read, faithful)
    {
      var next := ReadEntry(entries[i], platform, trim, read, faithful);
      if next.None? {
        return None;
      }
      ChainGrows(entries, parsed, next.value, read, faithful);
      parsed := parsed + [next.value];
    }
    return Some(parsed);
  }

  /** From the nearest entry outwards, the first that is not trusted, or the farthest. */
  method NearestUntrusted(chain: seq<Parsed>, networks: seq<Cidr>) returns (index: nat)
    requires WellFormed(networks) && chain != []
    ensures index < |chain| && (index > 0 ==> !IsTrusted(chain[index].address, networks))
    ensures forall j | index < j < |chain| :: IsTrusted(chain[j].address, networks)
  {
    index := |chain| - 1;
    while index > 0 && IsTrusted(chain[index].address, networks)
      invariant 0 <= index < |chain|
      invariant forall j | index < j < |chain| :: IsTrusted(chain[j].address, networks)
    {
      index := index - 1;
    }
  }

  method Resolve(
    peer: Option<Parsed>, forwarded: Option<string>, networks: seq<Cidr>, maxEntries: nat, platform: Platform,
    trim: string -> string, ghost read: Reading, ghost faithful: iset<Parsed>)
    returns (identity: string, ghost client: Option<Address>)
    requires WellFormed(networks) && ReadsBy(read, faithful, platform, trim)
    requires peer.Some? ==> peer.value in faithful
    ensures ClientIs(
              client, if peer.Some? then Some(peer.value.address) else None, forwarded, networks, maxEntries, read)
    ensures if client.None? then identity == "unknown" else Parsed(client.value, identity) in faithful
  {
    if peer.None? {
      return "unknown", None;
    }
    identity, client := peer.value.canonical, Some(peer.value.address);
    if |networks| == 0 || !IsTrusted(peer.value.address, networks) || forwarded.None?
       || Utf8Length(forwarded.value) > MAX_FORWARDED_BYTES || |Entries(forwarded.value)| > maxEntries {
      return;
    }
    var entries := Entries(forwarded.value);
    var chain := ReadChain(entries, platform, trim, read, faithful);
    if chain.None? {
      return;
    }
    var index := NearestUntrusted(chain.value, networks);
    identity, client := chain.value[index].canonical, read(entries[index]);
    assert Chosen(entries, index, networks, read);
  }

  function PeerAddress(peer: Option<string>, platform: Platform): Option<Address> {
    if peer.None? then None else Denoted(platform, peer.value)
  }

  method ParsePeer(peer: Option<string>, platform: Platform) returns (parsed: Option<Parsed>)
    ensures PeerAddress(peer, platform) == if parsed.Some? then Some(parsed.value.address) else None
    ensures parsed.Some? ==> Faithful(parsed.value)
  {
    if peer.None? {
      return None;
    }
    parsed := ParseAddress(platform, peer.value);
  }

  /**
   The address closest to the gateway that no trusted proxy vouches for; the
   farthest one if all are trusted; the peer itself unless the header is heeded.
   */
  method ResolveClientAddress(
    peer: Option<string>, forwarded: Option<string>, networks: seq<Cidr>, maxEntries: nat, platform: Platform,
    trim: string -> string)
    returns (identity: string)
    requires WellFormed(networks)
    ensures Resolves(identity, PeerAddress(peer, platform), forwarded, networks, maxEntries, ReadingOf(platform, trim))
  {
    ghost var read := ReadingOf(platform, trim);
    ghost var faithful := iset p: Parsed | Faithful(p);
    var parsed := ParsePeer(peer, platform);
    ghost var client;
    identity, client := Resolve(parsed, forwarded, networks, maxEntries, platform, trim, read, faithful);
    ResolvesTo(identity, client, PeerAddress(peer, platform), forwarded, networks, maxEntries, read);
  }

  lemma ResolvesTo(
    identity: string, client: Option<Address>, peer: Option<Address>, forwarded: Option<string>, networks: seq<Cidr>,
    maxEntries: nat, read: Reading)
    requires WellFormed(networks) && ClientIs(client, peer, forwarded, networks, maxEntries, read)
    requires if client.None? then identity == "unknown" else Faithful(Parsed(client.value, identity))
    ensures Resolves(identity, peer, forwarded, networks, maxEntries, read)
  {
    assert Identifies(identity, client);
  }
}
