/** Expanding a network into its addresses by incrementing until it is left. */
module CidrWalk {
  import opened Sequences
  import opened Bytes
  import opened Cidr

  /** The first twelve bytes of an IPv6 address that stands for an IPv4 one. */
  const MAPPED_PREFIX: seq<byte> := [0, 0, 0, 0, 0, 0, 0, 0, 0, 0, 255, 255]

  const TWO_32 := 0x1_0000_0000
  const MAPPED := 0xFFFF * TWO_32

  predicate IsMapped(ip: seq<byte>) {
    |ip| == 16 && ip[..12] == MAPPED_PREFIX
  }

  /** The IPv4 form of an address that has one, else the address. */
  function Short(ip: seq<byte>): seq<byte> {
    if IsMapped(ip) then ip[12..] else ip
  }

  /** The prefix length of a network for the form it is compared in: the mask's last four bytes, if need be. */
  function ShortOnes(net: seq<byte>, ones: nat): nat {
    if !IsMapped(net) then ones else if ones >= 96 then ones - 96 else 0
  }

  /** Network membership: both addresses in their short form, and of one length. */
  predicate Holds(net: seq<byte>, ones: nat, ip: seq<byte>) {
    Contains(Short(net), ShortOnes(net, ones), Short(ip))
  }

  /** A network as the target parser delivers it: an address of either kind, masked to its prefix length. */
  ghost predicate Aligned(net: seq<byte>, ones: nat) {
    (|net| == 4 || |net| == 16) && ones <= 8 * |net| && Value(net) % Pow2(8 * |net| - ones) == 0
  }

  function Size(net: seq<byte>, ones: nat): nat
    requires ones <= 8 * |net|
  {
    Pow2(8 * |net| - ones)
  }

  /** How far the walk gets: the whole network, unless it runs into the addresses that stand for IPv4 ones. */
  function WalkLength(net: seq<byte>, ones: nat): nat
    requires ones <= 8 * |net|
  {
    if |net| == 16 && Value(net) < MAPPED < Value(net) + Size(net, ones) then MAPPED - Value(net) else Size(net, ones)
  }

  lemma {:induction false} Pow2Grows(m: nat, n: nat)
    requires m < n
    ensures Pow2(m) < Pow2(n)
  {
    if m + 1 < n { Pow2Grows(m, n - 1); }
  }

  lemma Pow2Large()
    ensures Pow2(32) == TWO_32 && Pow2(128) > MAPPED + TWO_32
  {
    Pow2Eight();
    Pow2Add(8, 8);
    Pow2Add(16, 16);
    Pow2Add(32, 32);
    Pow2Grows(64, 128);
  }

  lemma Regroup(x: nat, p: nat, y: nat, z: nat)
    ensures 256 * (x * p + y) + z == x * (256 * p) + (256 * y + z)
  {
  }

  lemma {:induction false} ValueConcat(a: seq<byte>, b: seq<byte>)
    ensures Value(a + b) == Value(a) * Pow2(8 * |b|) + Value(b)
  {
    if b == [] {
      assert a + b == a;
    } else {
      var m := |b| - 1;
      assert (a + b)[..|a + b| - 1] == a + b[..m];
      ValueConcat(a, b[..m]);
      Pow2MoreByte(m);
      Regroup(Value(a), Pow2(8 * m), Value(b[..m]), b[m]);
    }
  }

  lemma {:induction false} ValueInjective(a: seq<byte>, b: seq<byte>)
    requires |a| == |b| && Value(a) == Value(b)
    ensures a == b
  {
    if a != [] {
      var m := |a| - 1;
      ValueInjective(a[..m], b[..m]);
      assert a == a[..m] + [a[m]] && b == b[..m] + [b[m]];
    }
  }

  lemma {:induction false} ZeroValue(n: nat)
    ensures Value(seq(n, _ => 0)) == 0
  {
    if n > 0 {
      var zeros: seq<byte> := seq(n, _ => 0);
      assert zeros[..n - 1] == seq(n - 1, _ => 0);
      ZeroValue(n - 1);
    }
  }

  lemma PrefixValue()
    ensures Value(MAPPED_PREFIX) == 0xFFFF
  {
    var zeros: seq<byte> := seq(10, _ => 0);
    var ones: seq<byte> := [255, 255];
    assert MAPPED_PREFIX == zeros + ones;
    ZeroValue(10);
    ValueConcat(zeros, ones);
    assert ones[..1] == [255] && ones[..1][..0] == [];
    assert Value(ones[..1]) == 255;
  }

  lemma LeadingHalf(h: nat, l: nat)
    requires l < TWO_32
    ensures h == 0xFFFF <==> MAPPED <= h * TWO_32 + l < MAPPED + TWO_32
  {
  }

  lemma PrefixIff(high: seq<byte>)
    requires |high| == 12
    ensures high == MAPPED_PREFIX <==> Value(high) == 0xFFFF
  {
    PrefixValue();
    if Value(high) == 0xFFFF { ValueInjective(high, MAPPED_PREFIX); }
  }

  lemma Halves(high: seq<byte>, low: seq<byte>)
    requires |low| == 4
    ensures Value(high + low) == Value(high) * TWO_32 + Value(low) && Value(low) < TWO_32
  {
    ValueConcat(high, low);
    ValueBound(low);
    Pow2Large();
  }

  /** The addresses that stand for IPv4 ones are 2^32 consecutive numbers. */
  lemma MappedIff(ip: seq<byte>)
    requires |ip| == 16
    ensures IsMapped(ip) <==> MAPPED <= Value(ip) < MAPPED + TWO_32
    ensures IsMapped(ip) ==> Value(ip[12..]) == Value(ip) - MAPPED
  {
    var high, low := ip[..12], ip[12..];
    assert ip == high + low;
    Halves(high, low);
    LeadingHalf(Value(high), Value(low));
    PrefixIff(high);
  }

  lemma MultipleOf(x: nat, d: nat, q: nat)
    requires d > 0 && x == q * d
    ensures x % d == 0
  {
    DivUnique(x, d, q, 0);
  }

  lemma SmallMultiple(v: nat, d: nat)
    requires d > 0 && v < d && v % d == 0
    ensures v == 0
  {
  }

  lemma MultiplesDiffer(v: nat, m: nat, d: nat)
    requires d > 0 && v % d == 0 && m % d == 0 && m <= v
    ensures (v - m) % d == 0
  {
    var a, b := v / d, m / d;
    assert v == a * d && m == b * d;
    assert v - m == (a - b) * d;
    if a < b { MonotoneProduct(a, b, d); }
    MultipleOf(v - m, d, if a < b then 0 else a - b);
  }

  lemma RoomForOneMore(v: nat, p: nat, q: nat)
    requires p > 0 && v % p == 0 && v < q * p
    ensures v + p <= q * p
  {
    var m := v / p;
    assert v == m * p;
    assert (q - m) * p == q * p - v;
    MultiplesApart(q - m, p);
    MultiplesApart(0 - (q - m), p);
    assert (0 - (q - m)) * p == v - q * p;
  }

  /** A network stays within the addresses of its length. */
  lemma BlockFits(net: seq<byte>, ones: nat)
    requires Aligned(net, ones)
    ensures Value(net) + Size(net, ones) <= Pow2(8 * |net|)
  {
    ValueBound(net);
    Pow2Add(ones, 8 * |net| - ones);
    RoomForOneMore(Value(net), Size(net, ones), Pow2(ones));
  }

  /** Up to the last address the increments count; one more wraps to zero. */
  lemma LaterWraps(net: seq<byte>, k: nat)
    requires Value(net) + k <= Pow2(8 * |net|)
    ensures Value(Later(net, k)) == if Value(net) + k < Pow2(8 * |net|) then Value(net) + k else 0
  {
    ValueBound(net);
    if Value(net) + k < Pow2(8 * |net|) {
      LaterValue(net, k);
    } else {
      LaterValue(net, k - 1);
      IncrementAddsOne(Later(net, k - 1));
    }
  }

  /** By the bytes alone, the block of a network is left after its last address unless it is everything. */
  lemma BlockEnds(net: seq<byte>, ones: nat, k: nat)
    requires Aligned(net, ones) && k <= Size(net, ones) && (ones >= 1 || k < Size(net, ones))
    ensures Contains(net, ones, Later(net, k)) <==> k < Size(net, ones)
    ensures k < Size(net, ones) ==> Value(Later(net, k)) == Value(net) + k
  {
    BlockFits(net, ones);
    ContainsIsBlock(net, ones, Later(net, k));
    LaterWraps(net, k);
    if ones >= 1 { Pow2Grows(8 * |net| - ones, 8 * |net|); }
  }

  /** The empty prefix is the block of all addresses. */
  lemma EmptyPrefix(net: seq<byte>)
    requires Aligned(net, 0)
    ensures Value(net) == 0
  {
    ValueBound(net);
    SmallMultiple(Value(net), Pow2(8 * |net|));
  }

  lemma UnmappedWalk(net: seq<byte>, ones: nat, k: nat)
    requires Aligned(net, ones) && |net| == 16 && !IsMapped(net) && k <= WalkLength(net, ones)
    ensures Holds(net, ones, Later(net, k)) <==> k < WalkLength(net, ones)
    ensures k < WalkLength(net, ones) ==> Value(Later(net, k)) == Value(net) + k
  {
    var ip := Later(net, k);
    Pow2Large();
    if ones == 0 { EmptyPrefix(net); }
    BlockEnds(net, ones, k);
    BlockFits(net, ones);
    MappedIff(net);
    MappedIff(ip);
    LaterWraps(net, k);
    assert IsMapped(ip) ==> !Contains(net, ones, Short(ip));
  }

  lemma EvenQuotient(q: nat, t: nat)
    ensures ((2 * TWO_32 * q) * t) / TWO_32 == 2 * (q * t)
  {
    var v := (2 * TWO_32 * q) * t;
    assert v == (2 * (q * t)) * TWO_32;
    DivUnique(v, TWO_32, 2 * (q * t), 0);
  }

  /** No multiple of 2^33 lies among the addresses that stand for IPv4 ones. */
  lemma NoneMapped(v: nat, d: nat, q: nat)
    requires d > 0 && d == 2 * TWO_32 * q && v % d == 0
    ensures !(MAPPED <= v < MAPPED + TWO_32)
  {
    var t := v / d;
    assert v == d * t;
    EvenQuotient(q, t);
    if MAPPED <= v < MAPPED + TWO_32 { DivUnique(v, TWO_32, 0xFFFF, v - MAPPED); }
  }

  lemma LargeSize(n: nat)
    requires n >= 33
    ensures Pow2(n) == 2 * TWO_32 * Pow2(n - 33)
  {
    Pow2Large();
    Pow2Add(n - 33, 33);
    assert Pow2(33) == 2 * Pow2(32);
  }

  /** A network of addresses that stand for IPv4 ones fixes at least their twelve first bytes. */
  lemma MappedOnes(net: seq<byte>, ones: nat)
    requires Aligned(net, ones) && IsMapped(net)
    ensures ones >= 96
  {
    MappedIff(net);
    if ones < 96 {
      LargeSize(128 - ones);
      NoneMapped(Value(net), Size(net, ones), Pow2(95 - ones));
    }
  }

  lemma MappedMultiple(p: nat, d: nat)
    requires d > 0 && p * d == TWO_32
    ensures MAPPED % d == 0
  {
    Scaled(0xFFFF, p, d);
    assert MAPPED == (0xFFFF * p) * d;
    MultipleOf(MAPPED, d, 0xFFFF * p);
  }

  /** Its short form is an IPv4 network of the same size. */
  lemma ShortAligned(net: seq<byte>, ones: nat)
    requires Aligned(net, ones) && IsMapped(net)
    ensures ones >= 96 && Aligned(net[12..], ones - 96) && Size(net[12..], ones - 96) == Size(net, ones)
    ensures Value(net[12..]) == Value(net) - MAPPED >= 0
  {
    MappedOnes(net, ones);
    MappedIff(net);
    Pow2Large();
    Pow2Add(ones - 96, 128 - ones);
    MappedMultiple(Pow2(ones - 96), Size(net, ones));
    MultiplesDiffer(Value(net), MAPPED, Size(net, ones));
  }

  /**
   * An IPv6 network holds the addresses of its block, except that those that stand for IPv4 ones and
   * the others never hold each other.
   */
  lemma HoldsIff(net: seq<byte>, ones: nat, ip: seq<byte>)
    requires Aligned(net, ones) && |net| == |ip| == 16
    ensures Holds(net, ones, ip) <==>
              && Value(net) <= Value(ip) < Value(net) + Pow2(128 - ones)
              && (0xFFFF_0000_0000 <= Value(net) < 0x1_0000_0000_0000 <==>
                  0xFFFF_0000_0000 <= Value(ip) < 0x1_0000_0000_0000)
  {
    MappedIff(net);
    MappedIff(ip);
    if IsMapped(net) {
      ShortAligned(net, ones);
      if IsMapped(ip) { ContainsIsBlock(net[12..], ones - 96, ip[12..]); }
    } else if !IsMapped(ip) {
      ContainsIsBlock(net, ones, ip);
    }
  }

  lemma MappedWalk(net: seq<byte>, ones: nat, k: nat)
    requires Aligned(net, ones) && IsMapped(net) && k <= WalkLength(net, ones)
    ensures Holds(net, ones, Later(net, k)) <==> k < WalkLength(net, ones)
    ensures k < WalkLength(net, ones) ==> Value(Later(net, k)) == Value(net) + k
  {
    var ip := Later(net, k);
    ShortAligned(net, ones);
    BlockFits(net[12..], ones - 96);
    Pow2Large();
    MappedIff(net);
    LaterWraps(net, k);
    MappedIff(ip);
    if IsMapped(ip) { ContainsIsBlock(net[12..], ones - 96, ip[12..]); }
  }

  /** The walk stays inside for exactly its length, counting up by one. */
  lemma WalkEnds(net: seq<byte>, ones: nat, k: nat)
    requires Aligned(net, ones) && k <= WalkLength(net, ones) && (|net| == 16 || ones >= 1)
    ensures Holds(net, ones, Later(net, k)) <==> k < WalkLength(net, ones)
    ensures k < WalkLength(net, ones) ==> Value(Later(net, k)) == Value(net) + k
  {
    if |net| == 4 {
      BlockEnds(net, ones, k);
    } else if IsMapped(net) {
      MappedWalk(net, ones, k);
    } else {
      UnmappedWalk(net, ones, k);
    }
  }

  /** Walking ever leaves a network unless it is all of IPv4. */
  lemma WalkEndsIff(net: seq<byte>, ones: nat)
    requires Aligned(net, ones)
    ensures (exists k: nat :: !Holds(net, ones, Later(net, k))) <==> |net| == 16 || ones >= 1
  {
    if |net| == 16 || ones >= 1 {
      WalkEnds(net, ones, WalkLength(net, ones));
    } else {
      forall k: nat ensures Holds(net, ones, Later(net, k)) {
        EverythingInside(net, Later(net, k));
      }
    }
  }

  function Block(net: seq<byte>, n: nat): seq<seq<byte>> {
    seq(n, k requires 0 <= k < n => Later(net, k))
  }

  /** The hosts of a network: the walk, without its ends for IPv4 prefixes of 30 or less. */
  function Hosts(net: seq<byte>, ones: nat): seq<seq<byte>>
    requires ones <= 8 * |net|
  {
    var all := Block(net, WalkLength(net, ones));
    if |net| == 4 && 32 - ones > 1 && |all| > 2 then all[1..|all| - 1] else all
  }

  lemma SmallBlocks(ones: nat)
    requires ones <= 32
    ensures if ones <= 30 then Pow2(32 - ones) >= 4 else Pow2(32 - ones) <= 2
  {
    if ones <= 30 {
      Pow2Add(30 - ones, 2);
      assert Pow2(2) == 4;
    } else {
      Pow2Eight();
    }
  }

  /** Whether the first and the last address are left out. */
  function Skip(net: seq<byte>, ones: nat): nat {
    if |net| == 4 && ones <= 30 then 1 else 0
  }

  lemma HostsAreWalk(net: seq<byte>, ones: nat)
    requires Aligned(net, ones)
    ensures |Hosts(net, ones)| == WalkLength(net, ones) - 2 * Skip(net, ones)
    ensures forall j: nat :: j < |Hosts(net, ones)| ==> Hosts(net, ones)[j] == Later(net, Skip(net, ones) + j)
  {
    if |net| == 4 { SmallBlocks(ones); }
  }

  lemma HostValue(net: seq<byte>, ones: nat, j: nat)
    requires Aligned(net, ones) && (|net| == 16 || ones >= 1) && j < |Hosts(net, ones)|
    ensures |Hosts(net, ones)[j]| == |net| && Value(Hosts(net, ones)[j]) == Value(net) + Skip(net, ones) + j
  {
    HostsAreWalk(net, ones);
    WalkEnds(net, ones, Skip(net, ones) + j);
  }

  /**
   * The hosts are ascending consecutive addresses of the walk, minus the first and the last for IPv4
   * prefixes of 30 or less; an IPv4 walk covers all 2^(32-ones) addresses.
   */
  lemma HostsAreBlock(net: seq<byte>, ones: nat)
    requires Aligned(net, ones) && (|net| == 16 || ones >= 1)
    ensures var skip := if |net| == 4 && ones <= 30 then 1 else 0;
            && |Hosts(net, ones)| == WalkLength(net, ones) - 2 * skip
            && (forall j :: 0 <= j < |Hosts(net, ones)| ==>
                  |Hosts(net, ones)[j]| == |net| && Value(Hosts(net, ones)[j]) == Value(net) + skip + j)
            && (|net| == 4 ==> WalkLength(net, ones) == Pow2(32 - ones))
  {
    HostsAreWalk(net, ones);
    forall j: nat | j < |Hosts(net, ones)|
      ensures |Hosts(net, ones)[j]| == |net| && Value(Hosts(net, ones)[j]) == Value(net) + Skip(net, ones) + j
    {
      HostValue(net, ones, j);
    }
  }

  /** How IPv6 addresses are written is left to the caller. */
  type Writer = seq<byte> -> string

  function Shown(ip: seq<byte>, write: Writer): string {
    if |Short(ip)| == 4 then Dotted(Short(ip)) else write(ip)
  }

  function Printed(hosts: seq<seq<byte>>, write: Writer): seq<string> {
    seq(|hosts|, j requires 0 <= j < |hosts| => Shown(hosts[j], write))
  }

  lemma ShortReads(ip: seq<byte>, short: seq<byte>, n: int, write: Writer)
    requires short == Short(ip) && |short| == 4 && Value(short) == n
    ensures DottedValue(Shown(ip, write)) == Some(n)
  {
    DottedRoundTrip(short);
    assert Shown(ip, write) == Dotted(short);
  }

  lemma MappedShort(ip: seq<byte>)
    requires |ip| == 16 && MAPPED <= Value(ip) < MAPPED + TWO_32
    ensures |Short(ip)| == 4 && Value(Short(ip)) == Value(ip) - MAPPED
  {
    MappedIff(ip);
  }

  /** What is printed for an IPv6 address that stands for an IPv4 one reads as that one's number. */
  lemma MappedReads(ip: seq<byte>, n: nat, write: Writer)
    requires |ip| == 16 && n < TWO_32 && Value(ip) == MAPPED + n
    ensures DottedValue(Shown(ip, write)) == Some(n)
  {
    MappedShort(ip);
    ShortReads(ip, Short(ip), n, write);
  }

  predicate ReadsAs(text: string, n: int) {
    DottedValue(text) == Some(n)
  }

  /** The texts read as consecutive numbers. */
  predicate ReadFrom(hosts: seq<string>, first: int) {
    forall j :: 0 <= j < |hosts| ==> ReadsAs(hosts[j], first + j)
  }

  /** An IPv4 address with this number. */
  predicate IsFour(ip: seq<byte>, n: int) {
    |ip| == 4 && Value(ip) == n
  }

  lemma FourReads(ip: seq<byte>, n: int, text: string, write: Writer)
    requires IsFour(ip, n) && text == Shown(ip, write)
    ensures ReadsAs(text, n)
  {
    assert Short(ip) == ip;
    ShortReads(ip, ip, n, write);
  }

  lemma PrintedFrom(hosts: seq<seq<byte>>, texts: seq<string>, first: int, write: Writer)
    requires |texts| == |hosts| && forall j :: 0 <= j < |hosts| ==> texts[j] == Shown(hosts[j], write)
    requires forall j :: 0 <= j < |hosts| ==> IsFour(hosts[j], first + j)
    ensures ReadFrom(texts, first)
  {
    forall j | 0 <= j < |texts| ensures ReadsAs(texts[j], first + j) {
      FourReads(hosts[j], first + j, texts[j], write);
    }
  }

  /** As many as an IPv4 network has hosts, and they read as its numbers in turn. */
  predicate ReadAsHosts(net: seq<byte>, ones: nat, hosts: seq<string>)
    requires |net| == 4 && ones <= 32
  {
    |hosts| == Pow2(32 - ones) - 2 * Skip(net, ones) && ReadFrom(hosts, Value(net) + Skip(net, ones))
  }

  lemma HostsAreFour(net: seq<byte>, ones: nat)
    requires Aligned(net, ones) && |net| == 4 && ones >= 1
    ensures |Hosts(net, ones)| == Pow2(32 - ones) - 2 * Skip(net, ones)
    ensures forall j :: 0 <= j < |Hosts(net, ones)| ==> IsFour(Hosts(net, ones)[j], Value(net) + Skip(net, ones) + j)
  {
    HostsAreWalk(net, ones);
    forall j: nat | j < |Hosts(net, ones)|
      ensures IsFour(Hosts(net, ones)[j], Value(net) + Skip(net, ones) + j)
    {
      HostValue(net, ones, j);
    }
  }

  /** The printed hosts of an IPv4 network read as consecutive numbers, as many as there should be. */
  lemma PrintedReads(net: seq<byte>, ones: nat, write: Writer)
    requires Aligned(net, ones) && |net| == 4 && ones >= 1
    ensures ReadAsHosts(net, ones, Printed(Hosts(net, ones), write))
  {
    HostsAreFour(net, ones);
    PrintedFrom(Hosts(net, ones), Printed(Hosts(net, ones), write), Value(net) + Skip(net, ones), write);
  }

  lemma BlockMore(net: seq<byte>, k: nat, write: Writer)
    ensures Printed(Block(net, k + 1), write) == Printed(Block(net, k), write) + [Shown(Later(net, k), write)]
  {
    assert Block(net, k + 1) == Block(net, k) + [Later(net, k)];
  }

  /** The loop of ExpandTarget: print and increment while still inside the network. */
  method Members(net: seq<byte>, ones: nat, write: Writer) returns (hosts: seq<string>)
    requires Aligned(net, ones) && (|net| == 16 || ones >= 1)
    ensures hosts == Printed(Block(net, WalkLength(net, ones)), write)
  {
    var ip := new byte[|net|](i requires 0 <= i < |net| => net[i]);
    hosts := [];
    ghost var k: nat, length := 0, WalkLength(net, ones);
    ghost var at := net;
    assert ip[..] == net;
    WalkEnds(net, ones, 0);
    while Holds(net, ones, ip[..])
      invariant k <= length && at == Later(net, k)
      invariant ip[..] == at
      invariant Holds(net, ones, at) <==> k < length
      invariant hosts == Printed(Block(net, k), write)
      decreases length - k
    {
      BlockMore(net, k, write);
      hosts := hosts + [Shown(ip[..], write)];
      IncIP(ip);
      k, at := k + 1, Incremented(at);
      WalkEnds(net, ones, k);
    }
  }

  /** A scan target after parsing: a name or plain address, a bad network, or a masked network. */
  datatype Target = Plain(text: string) | Malformed | Network(net: seq<byte>, ones: nat)

  method ExpandTarget(t: Target, write: Writer) returns (r: Option<seq<string>>)
    requires t.Network? ==> Aligned(t.net, t.ones) && (|t.net| == 16 || t.ones >= 1)
    ensures r == match t
                 case Plain(text) => Some([text])
                 case Malformed => None
                 case Network(net, ones) => Some(Printed(Hosts(net, ones), write))
    ensures t.Network? && |t.net| == 4 ==> r.Some? && ReadAsHosts(t.net, t.ones, r.value)
  {
    match t {
      case Plain(text) => r := Some([text]);
      case Malformed => r := None;
      case Network(net, ones) =>
        var hosts := Members(net, ones, write);
        if |net| == 4 && 32 - ones > 1 && |hosts| > 2 {
          hosts := hosts[1..|hosts| - 1];
        }
        assert hosts == Printed(Hosts(net, ones), write);
        if |net| == 4 { PrintedReads(net, ones, write); }
        r := Some(hosts);
    }
  }
}
