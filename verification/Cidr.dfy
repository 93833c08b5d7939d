/** Addresses as numbers: the carrying increment, membership under a mask, dotted decimal. */
module Cidr {
  import opened Sequences
  import opened Text
  import opened Bytes

  function Pow2(n: nat): (p: nat)
    ensures p > 0
  {
    if n == 0 then 1 else 2 * Pow2(n - 1)
  }

  lemma {:induction false} Pow2Add(m: nat, n: nat)
    ensures Pow2(m + n) == Pow2(m) * Pow2(n)
  {
    if n > 0 {
      Pow2Add(m, n - 1);
      assert Pow2(m + n) == 2 * Pow2(m + (n - 1));
    }
  }

  lemma Pow2Eight()
    ensures Pow2(0) == 1 && Pow2(1) == 2 && Pow2(2) == 4 && Pow2(3) == 8 && Pow2(4) == 16
    ensures Pow2(5) == 32 && Pow2(6) == 64 && Pow2(7) == 128 && Pow2(8) == 256
  {
    assert Pow2(4) == 16;
  }

  /** The number a big-endian address stands for. */
  function Value(ip: seq<byte>): nat {
    if ip == [] then 0 else 256 * Value(ip[..|ip| - 1]) + ip[|ip| - 1]
  }

  lemma {:induction false} ValueBound(ip: seq<byte>)
    ensures Value(ip) < Pow2(8 * |ip|)
  {
    if ip != [] {
      ValueBound(ip[..|ip| - 1]);
      Pow2Add(8 * (|ip| - 1), 8);
      Pow2Eight();
    }
  }

  /** The address after an increment that carries from the last byte up. */
  function Incremented(ip: seq<byte>): (r: seq<byte>)
    ensures |r| == |ip|
  {
    if ip == [] then []
    else if ip[|ip| - 1] < 255 then ip[..|ip| - 1] + [ip[|ip| - 1] + 1]
    else Incremented(ip[..|ip| - 1]) + [0]
  }

  lemma Pow2MoreByte(n: nat)
    ensures Pow2(8 * (n + 1)) == 256 * Pow2(8 * n)
  {
    Pow2Add(8 * n, 8);
    Pow2Eight();
  }

  /** The increment is plus one modulo 256^length, for addresses of any length. */
  lemma {:induction false} IncrementAddsOne(ip: seq<byte>)
    ensures Value(Incremented(ip)) == if Value(ip) + 1 == Pow2(8 * |ip|) then 0 else Value(ip) + 1
  {
    if ip != [] {
      var init, last := ip[..|ip| - 1], ip[|ip| - 1];
      var next := Incremented(ip);
      ValueBound(init);
      Pow2MoreByte(|init|);
      if last == 255 {
        IncrementAddsOne(init);
        assert next[..|next| - 1] == Incremented(init);
      } else {
        assert next[..|next| - 1] == init;
      }
    }
  }

  lemma {:induction false} CarryStops(ip: seq<byte>, i: nat)
    requires i < |ip| && ip[i] < 255 && forall j :: i < j < |ip| ==> ip[j] == 255
    ensures forall j :: 0 <= j < |ip| ==> Incremented(ip)[j] == if j < i then ip[j] else if j == i then ip[i] + 1 else 0
  {
    if i < |ip| - 1 { CarryStops(ip[..|ip| - 1], i); }
  }

  lemma {:induction false} CarryRunsOut(ip: seq<byte>)
    requires forall j :: 0 <= j < |ip| ==> ip[j] == 255
    ensures forall j :: 0 <= j < |ip| ==> Incremented(ip)[j] == 0
  {
    if ip != [] { CarryRunsOut(ip[..|ip| - 1]); }
  }

  method IncIP(ip: array<byte>)
    modifies ip
    ensures ip[..] == Incremented(old(ip[..]))
  {
    ghost var before := ip[..];
    var i := ip.Length - 1;
    while i >= 0
      invariant -1 <= i < ip.Length
      invariant forall j :: 0 <= j <= i ==> ip[j] == before[j]
      invariant forall j :: i < j < ip.Length ==> before[j] == 255 && ip[j] == 0
      decreases i
    {
      ip[i] := if ip[i] == 255 then 0 else ip[i] + 1;
      if ip[i] > 0 {
        CarryStops(before, i);
        return;
      }
      i := i - 1;
    }
    CarryRunsOut(before);
  }

  /** How many of the first `ones` bits fall into byte i. */
  function BitsIn(ones: nat, i: nat): (k: nat)
    ensures k <= 8
  {
    if ones >= 8 * i + 8 then 8 else if ones > 8 * i then ones - 8 * i else 0
  }

  /** A byte under a mask that keeps its first k bits. */
  function Masked(x: byte, k: nat): int
    requires k <= 8
  {
    x - x % Pow2(8 - k)
  }

  /** Network membership: the bytes agree under the mask. */
  predicate Contains(net: seq<byte>, ones: nat, ip: seq<byte>) {
    |ip| == |net| &&
    (net == [] ||
     var n := |net| - 1;
     Masked(ip[n], BitsIn(ones, n)) == Masked(net[n], BitsIn(ones, n)) && Contains(net[..n], ones, ip[..n]))
  }

  lemma {:induction false} MultiplesApart(t: int, d: int)
    requires d >= 0
    ensures t >= 1 ==> t * d >= d
    ensures t <= -1 ==> t * d <= 0 - d
  {
    if t >= 1 {
      assert t * d == (t - 1) * d + d;
      assert (t - 1) * d >= 0;
    }
    if t <= -1 {
      assert t * d == (t + 1) * d - d;
      assert (t + 1) * d <= 0;
    }
  }

  lemma DivUnique(x: nat, d: nat, q: nat, r: nat)
    requires x == q * d + r && r < d
    ensures x / d == q
  {
    var e, m := x / d, x % d;
    assert x == e * d + m;
    assert (e - q) * d == r - m;
    MultiplesApart(e - q, d);
  }

  lemma MultiplesEqual(x: nat, y: nat, d: nat)
    requires d > 0
    ensures x - x % d == y - y % d <==> x / d == y / d
  {
    assert x == x / d * d + x % d && y == y / d * d + y % d;
    DivUnique(x - x % d, d, x / d, 0);
    DivUnique(y - y % d, d, y / d, 0);
  }

  lemma MaskedEqual(x: byte, y: byte, k: nat)
    requires k <= 8
    ensures Masked(x, k) == Masked(y, k) <==> x / Pow2(8 - k) == y / Pow2(8 - k)
    ensures 256 == Pow2(k) * Pow2(8 - k)
  {
    Pow2Eight();
    MultiplesEqual(x, y, Pow2(8 - k));
  }

  lemma Scaled(q: nat, v: nat, d: nat)
    ensures (q * v) * d == (q * d) * v
  {
  }

  lemma Distributed(s: nat, t: nat, d: nat)
    ensures (s + t) * d == s * d + t * d
  {
  }

  lemma MonotoneProduct(a: nat, b: nat, d: nat)
    requires a <= b
    ensures a * d <= b * d
  {
  }

  /** Dividing by part of a byte leaves the leading number scaled and the byte divided. */
  lemma ByteDivided(v: nat, x: byte, d: nat, q: nat)
    requires d > 0 && q * d == 256
    ensures (256 * v + x) / d == q * v + x / d && x / d < q
  {
    var a, r := x / d, x % d;
    assert x == a * d + r;
    Scaled(q, v, d);
    Distributed(q * v, a, d);
    DivUnique(256 * v + x, d, q * v + a, r);
    if a >= q { MonotoneProduct(q, a, d); }
  }

  lemma DivChain(v: nat, x: byte, p: nat)
    requires p > 0
    ensures (256 * v + x) / (256 * p) == v / p
  {
    var q, r := v / p, v % p;
    assert v == q * p + r;
    assert 256 * v + x == q * (256 * p) + (256 * r + x);
    assert 256 * r + x < 256 * p;
    DivUnique(256 * v + x, 256 * p, q, 256 * r + x);
  }

  /** Every byte agrees. */
  lemma {:induction false} ContainsBytes(net: seq<byte>, ones: nat, ip: seq<byte>)
    requires |ip| == |net|
    ensures Contains(net, ones, ip) <==>
              forall i :: 0 <= i < |net| ==> Masked(ip[i], BitsIn(ones, i)) == Masked(net[i], BitsIn(ones, i))
  {
    if net != [] {
      var n := |net| - 1;
      ContainsBytes(net[..n], ones, ip[..n]);
      assert forall i :: 0 <= i < n ==> ip[..n][i] == ip[i] && net[..n][i] == net[i];
    }
  }

  /** Bits beyond the address make no difference. */
  lemma {:induction false} ContainsCapped(net: seq<byte>, ones: nat, more: nat, ip: seq<byte>)
    requires |ip| == |net| && ones >= 8 * |net| && more >= 8 * |net|
    ensures Contains(net, ones, ip) <==> Contains(net, more, ip)
  {
    if net != [] {
      var n := |net| - 1;
      assert BitsIn(ones, n) == BitsIn(more, n);
      ContainsCapped(net[..n], ones, more, ip[..n]);
    }
  }

  lemma SplitEqual(d: nat, a: nat, b: nat, x: nat, y: nat)
    requires x < d && y < d
    ensures d * a + x == d * b + y <==> a == b && x == y
  {
    DivUnique(d * a + x, d, a, x);
    DivUnique(d * b + y, d, b, y);
  }

  lemma LastBytes(v: nat, u: nat, x: byte, y: byte, d: nat, q: nat)
    requires d > 0 && q * d == 256
    ensures v == u && x / d == y / d <==> (256 * v + x) / d == (256 * u + y) / d
  {
    ByteDivided(v, x, d, q);
    ByteDivided(u, y, d, q);
    SplitEqual(q, v, u, x / d, y / d);
  }

  /** The prefix ends in the last byte: the leading numbers agree entirely, the byte in k bits. */
  lemma LastByteIn(v: nat, u: nat, x: byte, y: byte, k: nat)
    requires k <= 8
    ensures v == u && Masked(x, k) == Masked(y, k) <==>
            (256 * v + x) / Pow2(8 - k) == (256 * u + y) / Pow2(8 - k)
  {
    MaskedEqual(x, y, k);
    LastBytes(v, u, x, y, Pow2(8 - k), Pow2(k));
  }

  lemma ContainsInLast(net: seq<byte>, ones: nat, ip: seq<byte>)
    requires |ip| == |net| > 0 && 8 * (|net| - 1) <= ones <= 8 * |net|
    requires var n := |net| - 1; Contains(net[..n], 8 * n, ip[..n]) <==> Value(ip[..n]) == Value(net[..n])
    ensures Contains(net, ones, ip) <==> Value(ip) / Pow2(8 * |net| - ones) == Value(net) / Pow2(8 * |net| - ones)
  {
    var n := |net| - 1;
    ContainsCapped(net[..n], ones, 8 * n, ip[..n]);
    LastByteIn(Value(ip[..n]), Value(net[..n]), ip[n], net[n], ones - 8 * n);
  }

  lemma MaskedAway(x: byte)
    ensures Masked(x, 0) == 0
  {
    Pow2Eight();
  }

  lemma DropByte(ip: seq<byte>, k: nat)
    requires ip != []
    ensures Value(ip) / Pow2(k + 8) == Value(ip[..|ip| - 1]) / Pow2(k)
  {
    Pow2Add(k, 8);
    Pow2Eight();
    DivChain(Value(ip[..|ip| - 1]), ip[|ip| - 1], Pow2(k));
  }

  /** The prefix ends before the last byte: that byte does not matter. */
  lemma LastByteOut(net: seq<byte>, ones: nat, ip: seq<byte>)
    requires |ip| == |net| > 0 && ones < 8 * (|net| - 1)
    ensures var n := |net| - 1;
            && Masked(ip[n], BitsIn(ones, n)) == Masked(net[n], BitsIn(ones, n))
            && Value(ip) / Pow2(8 * |net| - ones) == Value(ip[..n]) / Pow2(8 * n - ones)
            && Value(net) / Pow2(8 * |net| - ones) == Value(net[..n]) / Pow2(8 * n - ones)
  {
    var n := |net| - 1;
    MaskedAway(ip[n]);
    MaskedAway(net[n]);
    DropByte(ip, 8 * n - ones);
    DropByte(net, 8 * n - ones);
  }

  /** Membership is sharing the number made of the first `ones` bits. */
  lemma {:induction false} ContainsIff(net: seq<byte>, ones: nat, ip: seq<byte>)
    requires |ip| == |net| && ones <= 8 * |net|
    ensures Contains(net, ones, ip) <==> Value(ip) / Pow2(8 * |net| - ones) == Value(net) / Pow2(8 * |net| - ones)
  {
    if net != [] {
      var n := |net| - 1;
      if ones >= 8 * n {
        ContainsIff(net[..n], 8 * n, ip[..n]);
        assert Pow2(0) == 1;
        ContainsInLast(net, ones, ip);
      } else {
        ContainsIff(net[..n], ones, ip[..n]);
        LastByteOut(net, ones, ip);
      }
    }
  }

  lemma BlockIff(u: nat, v: nat, p: nat)
    requires p > 0 && v % p == 0
    ensures u / p == v / p <==> v <= u < v + p
  {
    var q := v / p;
    assert v == q * p;
    if v <= u < v + p {
      DivUnique(u, p, q, u - v);
    }
    assert u == (u / p) * p + u % p;
  }

  /** The block of a network: 2^(bits - ones) consecutive numbers from the network number on. */
  lemma ContainsIsBlock(net: seq<byte>, ones: nat, ip: seq<byte>)
    requires |ip| == |net| && ones <= 8 * |net|
    requires Value(net) % Pow2(8 * |net| - ones) == 0
    ensures Contains(net, ones, ip) <==> Value(net) <= Value(ip) < Value(net) + Pow2(8 * |net| - ones)
  {
    ContainsIff(net, ones, ip);
    BlockIff(Value(ip), Value(net), Pow2(8 * |net| - ones));
  }

  lemma EverythingInside(net: seq<byte>, ip: seq<byte>)
    requires |ip| == |net|
    ensures Contains(net, 0, ip)
  {
    ContainsBytes(net, 0, ip);
    forall i | 0 <= i < |net| ensures Masked(ip[i], BitsIn(0, i)) == Masked(net[i], BitsIn(0, i)) {
      MaskedAway(ip[i]);
      MaskedAway(net[i]);
    }
  }

  /** The address k increments after ip. */
  function Later(ip: seq<byte>, k: nat): (r: seq<byte>)
    ensures |r| == |ip|
  {
    if k == 0 then ip else Incremented(Later(ip, k - 1))
  }

  lemma {:induction false} LaterValue(ip: seq<byte>, k: nat)
    requires Value(ip) + k < Pow2(8 * |ip|)
    ensures Value(Later(ip, k)) == Value(ip) + k
  {
    if k > 0 {
      LaterValue(ip, k - 1);
      IncrementAddsOne(Later(ip, k - 1));
    }
  }

  function Octets(ip: seq<byte>): seq<string> {
    seq(|ip|, i requires 0 <= i < |ip| => Itoa(ip[i]))
  }

  /** Dotted decimal notation. */
  function Dotted(ip: seq<byte>): string {
    Join(Octets(ip), '.')
  }

  lemma OctetsSplit(ip: seq<byte>)
    requires ip != []
    ensures Split(Dotted(ip), '.') == Octets(ip)
  {
    forall p | p in Octets(ip) ensures '.' !in p {
      var i :| 0 <= i < |ip| && Octets(ip)[i] == p;
      ItoaTight(ip[i]);
    }
    SplitJoin(Octets(ip), '.');
  }

  /** Cut at the dots, an address reads as its bytes, the first byte first. */
  lemma DottedReads(ip: seq<byte>)
    requires ip != []
    ensures |Split(Dotted(ip), '.')| == |ip|
    ensures forall k :: 0 <= k < |ip| ==> Atoi(Split(Dotted(ip), '.')[k]) == Some(ip[k])
  {
    OctetsSplit(ip);
    forall k | 0 <= k < |ip| ensures Atoi(Octets(ip)[k]) == Some(ip[k]) {
      AtoiItoa(ip[k]);
    }
  }

  /** The base-256 number that numerals spell, the first one leading. */
  function Spelt(parts: seq<string>): Option<int> {
    if parts == [] then Some(0)
    else
      var init, last := Spelt(parts[..|parts| - 1]), Atoi(parts[|parts| - 1]);
      if init.Some? && last.Some? && 0 <= last.value < 256 then Some(256 * init.value + last.value) else None
  }

  lemma {:induction false} SpeltIsValue(parts: seq<string>, ip: seq<byte>)
    requires |parts| == |ip| && forall k :: 0 <= k < |ip| ==> Atoi(parts[k]) == Some(ip[k])
    ensures Spelt(parts) == Some(Value(ip))
  {
    if ip != [] { SpeltIsValue(parts[..|ip| - 1], ip[..|ip| - 1]); }
  }

  /** A reader of dotted decimal. */
  function DottedValue(text: string): Option<int> {
    Spelt(Split(text, '.'))
  }

  /** Reading a printed address gives the number it stands for. */
  lemma DottedRoundTrip(ip: seq<byte>)
    requires ip != []
    ensures DottedValue(Dotted(ip)) == Some(Value(ip))
  {
    DottedReads(ip);
    SpeltIsValue(Split(Dotted(ip), '.'), ip);
  }

  /** Different addresses print differently. */
  lemma DottedInjective(a: seq<byte>, b: seq<byte>)
    requires |a| == |b| > 0 && Dotted(a) == Dotted(b)
    ensures a == b
  {
    OctetsSplit(a);
    OctetsSplit(b);
    forall i | 0 <= i < |a| ensures a[i] == b[i] {
      assert Octets(a)[i] == Octets(b)[i];
      ItoaInjective(a[i], b[i]);
    }
  }
}
