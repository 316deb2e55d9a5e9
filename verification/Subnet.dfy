/**
 The hosts a LAN scan probes on one subnet: the interface's prefix, narrowed to at
 least /24, computed in 32-bit arithmetic.
 */
module Subnet {
  import opened Ipv4
  import opened Words

  /** An interface address: IPv4 (as `To4` sees it) or anything else. */
  datatype Ip = V4(addr: Addr) | NotV4

  /** `Mask.Size()`: leading ones and total bits; 0, 0 for a mask that is no prefix. */
  datatype MaskSize = MaskSize(ones: nat, bits: nat)

  // ----- 32-bit words -----

  /** `net.CIDRMask(ones, 32)`. */
  function PrefixMask(ones: nat): nat
    requires ones <= 32
  {
    Pow2Monotone(32 - ones, 32);
    Pow2(32) - Pow2(32 - ones)
  }

  /** Its complement: the host bits. */
  function HostMask(ones: nat): nat
    requires ones <= 32
  {
    Pow2(32 - ones) - 1
  }

  function AddU32(a: nat, b: nat): Addr {
    (a + b) % 0x1_0000_0000
  }

  /** RFC 3927: 169.254.0.0/16. */
  predicate LinkLocal(a: Addr) {
    Bytes(a)[0] == 169 && Bytes(a)[1] == 254
  }

  /** The block's first address is 169.254.0.0 and its last 169.254.255.255. */
  lemma LinkLocalExactly(a: Addr)
    ensures LinkLocal(a) <==> 0x100_0000 * 169 + 0x1_0000 * 254 <= a < 0x100_0000 * 169 + 0x1_0000 * 255
  {
    var b := Bytes(a);
    BytesRoundTrip(a);
    assert a == 0x100_0000 * b[0] + 0x1_0000 * b[1] + 0x100 * b[2] + b[3];
  }

  predicate Scannable(ip: Ip) {
    ip.V4? && !LinkLocal(ip.addr)
  }

  function Narrowed(ones: nat): nat {
    if ones < 24 then 24 else ones
  }

  // ----- What the subnet's hosts are -----

  /** Two addresses under the same prefix. */
  predicate SamePrefix(a: Addr, b: Addr, ones: nat)
    requires ones <= 32
  {
    And(a, PrefixMask(ones), 32) == And(b, PrefixMask(ones), 32)
  }

  /** Host bits all zero: the network address. All one: the broadcast address. */
  predicate IsNetwork(a: Addr, ones: nat)
    requires ones <= 32
  {
    And(a, HostMask(ones), 32) == 0
  }

  predicate IsBroadcast(a: Addr, ones: nat)
    requires ones <= 32
  {
    And(a, HostMask(ones), 32) == HostMask(ones)
  }

  predicate HasHosts(ip: Ip, mask: MaskSize) {
    Scannable(ip) && mask.bits == 32 && Narrowed(mask.ones) < 31
  }

  /** The first address of the block of 2^k addresses around `a`. */
  function Base(a: Addr, k: nat): Addr
    requires k <= 8
  {
    BlockFits(a, k);
    Block(a, k)
  }

  /** The addresses to scan for one interface address. */
  function SubnetAddrs(ip: Ip, mask: MaskSize): (addrs: seq<Addr>)
    ensures !HasHosts(ip, mask) ==> addrs == []
  {
    if !HasHosts(ip, mask) then []
    else
      var k := 32 - Narrowed(mask.ones);
      BlockFits(ip.addr, k);
      Pow2Values();
      Inside(Base(ip.addr, k), Pow2(k))
  }

  /** The addresses strictly inside a block, ascending. */
  function Inside(base: Addr, size: nat): (addrs: seq<Addr>)
    requires size >= 1 && base + size <= 0x1_0000_0000
    ensures |addrs| == if size <= 2 then 0 else size - 2
    ensures forall i | 0 <= i < |addrs| :: addrs[i] == base + 1 + i
  {
    seq(if size <= 2 then 0 else size - 2, i requires 0 <= i < size - 2 => base + 1 + i)
  }

  function Printed(addrs: seq<Addr>): (texts: seq<string>)
    ensures |texts| == |addrs| && forall i | 0 <= i < |addrs| :: texts[i] == Print(addrs[i])
  {
    seq(|addrs|, i requires 0 <= i < |addrs| => Print(addrs[i]))
  }

  function SubnetHostTexts(ip: Ip, mask: MaskSize): seq<string> {
    Printed(SubnetAddrs(ip, mask))
  }

  /** Blocks of at most 256 addresses never reach past the 32-bit range. */
  lemma BlockFits(a: Addr, k: nat)
    requires k <= 8
    ensures Pow2(k) <= 256 && Block(a, k) + Pow2(k) <= 0x1_0000_0000
  {
    Pow2Values();
    Pow2Monotone(k, 8);
    BlockInRange(a, k, 32);
  }

  /** Masking with a prefix finds the block, so equal prefixes are equal blocks. */
  lemma SamePrefixIsSameBlock(a: Addr, b: Addr, ones: nat)
    requires ones <= 32
    ensures And(a, PrefixMask(ones), 32) == Block(a, 32 - ones)
    ensures SamePrefix(a, b, ones) <==> Block(a, 32 - ones) == Block(b, 32 - ones)
  {
    Pow2Values();
    AndHighBits(a, 32 - ones, 32);
    AndHighBits(b, 32 - ones, 32);
  }

  /** The counting loop, in 32-bit arithmetic that never wraps around. */
  method ListInside(base: Addr, total: nat) returns (hosts: seq<string>)
    requires total >= 1 && base + total <= 0x1_0000_0000
    ensures hosts == Printed(Inside(base, total))
  {
    hosts := [];
    var i := 1;
    while i < total - 1
      invariant 1 <= i && (i == 1 || i <= total - 1)
      invariant hosts == Printed(Inside(base, total))[..i - 1]
    {
      var addr := AddU32(base, i);
      assert addr == base + i;
      hosts := hosts + [Print(addr)];
      i := i + 1;
    }
  }

  /** Mask and shift, then list. */
  method SubnetHosts(ip: Ip, mask: MaskSize) returns (hosts: seq<string>)
    requires mask.ones <= mask.bits
    ensures hosts == SubnetHostTexts(ip, mask)
  {
    if !Scannable(ip) { return []; }
    var ones, bits := mask.ones, mask.bits;
    if bits != 32 { return []; }
    if ones < 24 { ones := 24; }
    if ones >= 31 { return []; }
    SamePrefixIsSameBlock(ip.addr, ip.addr, ones);
    BlockFits(ip.addr, 32 - ones);
    var base := And(ip.addr, PrefixMask(ones), 32);
    var total := Pow2(32 - ones);
    hosts := ListInside(base, total);
  }

  /** The list is an interval of 2^(32-n)-2 addresses just after the block's base. */
  lemma SubnetAddrsInterval(ip: Ip, mask: MaskSize)
    requires HasHosts(ip, mask)
    ensures var k, addrs := 32 - Narrowed(mask.ones), SubnetAddrs(ip, mask);
            && |addrs| == Pow2(k) - 2 <= 254
            && (forall i | 0 <= i < |addrs| :: addrs[i] == Base(ip.addr, k) + 1 + i)
            && Pow2(k) >= 4
  {
    BlockFits(ip.addr, 32 - Narrowed(mask.ones));
    Pow2Values();
    Pow2Monotone(2, 32 - Narrowed(mask.ones));
  }

  /** Strictly inside the block: same prefix, neither network nor broadcast. */
  lemma InsideExact(a: Addr, n: nat, x: Addr)
    requires 24 <= n <= 32
    ensures Base(a, 32 - n) < x < Base(a, 32 - n) + Pow2(32 - n) - 1
            <==> SamePrefix(x, a, n) && !IsNetwork(x, n) && !IsBroadcast(x, n)
  {
    SamePrefixIsSameBlock(x, a, n);
    AndLowBits(x, 32 - n, 32);
    InsideBlock(x, a, 32 - n);
  }

  /**
   The addresses listed are exactly those under the narrowed prefix that are neither its
   network nor its broadcast address.
   */
  lemma SubnetAddrsExact(ip: Ip, mask: MaskSize, x: Addr)
    requires HasHosts(ip, mask)
    ensures var n := Narrowed(mask.ones);
            x in SubnetAddrs(ip, mask) <==> SamePrefix(x, ip.addr, n) && !IsNetwork(x, n) && !IsBroadcast(x, n)
  {
    var k := 32 - Narrowed(mask.ones);
    SubnetAddrsInterval(ip, mask);
    InsideExact(ip.addr, Narrowed(mask.ones), x);
    var base := Base(ip.addr, k);
    if base < x < base + Pow2(k) - 1 {
      assert SubnetAddrs(ip, mask)[x - base - 1] == x;
    }
  }

  /** Addresses under a longer prefix share every shorter one. */
  lemma ShorterPrefix(a: Addr, b: Addr, long: nat, short: nat)
    requires short <= long <= 32 && SamePrefix(a, b, long)
    ensures SamePrefix(a, b, short)
  {
    SamePrefixIsSameBlock(a, b, long);
    SamePrefixIsSameBlock(a, b, short);
    LargerBlock(a, b, 32 - long, 32 - short);
  }

  /** Narrowing keeps every listed address in the interface's own subnet and in the /24 of its address. */
  lemma SubnetAddrsInside(ip: Ip, mask: MaskSize, x: Addr)
    requires x in SubnetAddrs(ip, mask)
    ensures mask.ones <= 32 && SamePrefix(x, ip.addr, mask.ones) && SamePrefix(x, ip.addr, 24)
  {
    SubnetAddrsExact(ip, mask, x);
    ShorterPrefix(x, ip.addr, Narrowed(mask.ones), mask.ones);
    ShorterPrefix(x, ip.addr, Narrowed(mask.ones), 24);
  }

  /** The list is already in the order the scan sorts by. */
  lemma SubnetHostsSorted(ip: Ip, mask: MaskSize, i: nat, j: nat)
    requires i < j < |SubnetHostTexts(ip, mask)|
    ensures var h := SubnetHostTexts(ip, mask);
            ':' !in h[i] && ':' !in h[j] && IpLess(h[i], h[j])
  {
    var addrs := SubnetAddrs(ip, mask);
    SubnetAddrsInterval(ip, mask);
    IpLessIsNumeric(addrs[i], addrs[j]);
  }
}
