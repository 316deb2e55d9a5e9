/**
 The scope of a LAN scan: the hosts of every local subnet, without duplicates and
 capped.
 */
module ScanTargets {
  import opened Wrappers
  import opened Text
  import opened Ipv4
  import opened Subnet

  const SCAN_ADDRESS_CAP := 1024
  const VIRTUAL_PREFIXES := ["docker", "veth", "br-", "virbr", "tun", "tap", "lo", "cni", "flannel"]

  datatype Address = IpNet(ip: Ip, mask: MaskSize) | OtherAddress

  /** An interface; its addresses are None when reading them failed. */
  datatype Interface = Interface(up: bool, loopback: bool, name: string, addrs: Option<seq<Address>>)

  // ----- All local subnets -----

  predicate IsVirtualInterface(name: string) {
    exists i | 0 <= i < |VIRTUAL_PREFIXES| :: HasPrefix(name, VIRTUAL_PREFIXES[i])
  }

  /** The local IPv4 networks in scope, in interface and address order. */
  function NetsOf(addrs: seq<Address>): seq<(Addr, MaskSize)> {
    if addrs == [] then [] else NetOf(addrs[0]) + NetsOf(addrs[1..])
  }

  function NetOf(a: Address): seq<(Addr, MaskSize)> {
    if a.IpNet? && Scannable(a.ip) then [(a.ip.addr, a.mask)] else []
  }

  function Nets(ifaces: seq<Interface>): seq<(Addr, MaskSize)> {
    if ifaces == [] then [] else IfaceNets(ifaces[0]) + Nets(ifaces[1..])
  }

  function IfaceNets(i: Interface): seq<(Addr, MaskSize)> {
    if i.up && !i.loopback && !IsVirtualInterface(i.name) && i.addrs.Some? then NetsOf(i.addrs.value) else []
  }

  /** No mask has more ones than bits. */
  predicate MasksFit(addrs: seq<Address>) {
    forall i | 0 <= i < |addrs| && addrs[i].IpNet? :: addrs[i].mask.ones <= addrs[i].mask.bits
  }

  function HostsOf(nets: seq<(Addr, MaskSize)>): seq<string> {
    if nets == [] then []
    else HostsOf(nets[..|nets| - 1]) + SubnetHostTexts(V4(nets[|nets| - 1].0), nets[|nets| - 1].1)
  }

  function SelvesOf(nets: seq<(Addr, MaskSize)>): set<string> {
    set n | n in nets :: Print(n.0)
  }

  /** Keeps the first occurrence of each element, in order. */
  function Dedup(list: seq<string>): seq<string> {
    if list == [] then []
    else AddNew(Dedup(list[..|list| - 1]), list[|list| - 1])
  }

  function AddNew(list: seq<string>, h: string): seq<string> {
    if h in list then list else list + [h]
  }

  lemma DedupSnoc(list: seq<string>, h: string)
    ensures Dedup(list + [h]) == AddNew(Dedup(list), h)
  {
    assert (list + [h])[..|list|] == list;
  }

  /** Deduplication keeps exactly the elements, each once. */
  lemma {:induction false} DedupExact(list: seq<string>)
    ensures Distinct(Dedup(list))
    ensures forall h :: h in Dedup(list) <==> h in list
  {
    if list != [] {
      DedupExact(list[..|list| - 1]);
      assert list == list[..|list| - 1] + [list[|list| - 1]];
    }
  }

  lemma {:induction false} DedupGrows(a: seq<string>, b: seq<string>)
    ensures Dedup(a) <= Dedup(a + b)
  {
    if b == [] {
      assert a + b == a;
    } else {
      assert a + b == (a + b[..|b| - 1]) + [b[|b| - 1]];
      DedupSnoc(a + b[..|b| - 1], b[|b| - 1]);
      DedupGrows(a, b[..|b| - 1]);
    }
  }

  lemma DedupGrowsBy(done: seq<string>, list: seq<string>, n: nat)
    requires n <= |list|
    ensures Dedup(done + list[..n]) <= Dedup(done + list)
  {
    assert done + list[..n] + list[n..] == done + list;
    DedupGrows(done + list[..n], list[n..]);
  }

  datatype Targets = Targets(hosts: seq<string>, selves: set<string>, truncated: bool)

  /** The n-th network is the one whose hosts take the list past the cap. */
  ghost predicate Overflows(nets: seq<(Addr, MaskSize)>, n: nat) {
    && 0 < n <= |nets|
    && |Dedup(HostsOf(nets[..n - 1]))| <= SCAN_ADDRESS_CAP < |Dedup(HostsOf(nets[..n]))|
  }

  /**
   The scan's scope: the first 1024 distinct hosts of the networks in scope, and this machine's
   addresses on those networks, up to the one that overflowed the list if one did.
   */
  ghost predicate InScope(ifaces: seq<Interface>, t: Targets) {
    var nets := Nets(ifaces);
    var all := Dedup(HostsOf(nets));
    && t.hosts == all[..if |all| <= SCAN_ADDRESS_CAP then |all| else SCAN_ADDRESS_CAP]
    && (t.truncated <==> |all| > SCAN_ADDRESS_CAP)
    && if t.truncated then exists n: nat :: Overflows(nets, n) && t.selves == SelvesOf(nets[..n])
       else t.selves == SelvesOf(nets)
  }

  lemma {:induction false} HostsOfPrefix(nets: seq<(Addr, MaskSize)>, more: seq<(Addr, MaskSize)>)
    ensures HostsOf(nets) <= HostsOf(nets + more)
  {
    if more == [] {
      assert nets + more == nets;
    } else {
      assert (nets + more)[..|nets + more| - 1] == nets + more[..|more| - 1];
      HostsOfPrefix(nets, more[..|more| - 1]);
    }
  }

  /** Adds a subnet's new hosts; full when one more would pass the cap. */
  method AddHosts(list: seq<string>, before: seq<string>, ghost done: seq<string>)
    returns (hosts: seq<string>, full: bool)
    requires before == Dedup(done) && |before| <= SCAN_ADDRESS_CAP
    ensures |hosts| <= SCAN_ADDRESS_CAP
    ensures !full ==> hosts == Dedup(done + list)
    ensures full ==> |hosts| == SCAN_ADDRESS_CAP && hosts < Dedup(done + list)
  {
    hosts, full := before, false;
    var seen := set h | h in before;
    assert done + list[..0] == done;
    for i := 0 to |list|
      invariant |hosts| <= SCAN_ADDRESS_CAP
      invariant hosts == Dedup(done + list[..i]) && seen == set h | h in hosts
    {
      var h := list[i];
      assert done + list[..i + 1] == (done + list[..i]) + [h];
      DedupSnoc(done + list[..i], h);
      if h in seen { continue; }
      if |hosts| >= SCAN_ADDRESS_CAP {
        DedupGrowsBy(done, list, i + 1);
        return hosts, true;
      }
      seen := seen + {h};
      hosts := hosts + [h];
    }
    assert list[..|list|] == list;
  }

  lemma HostListGrows(nets: seq<(Addr, MaskSize)>, all: seq<(Addr, MaskSize)>)
    requires nets <= all
    ensures Dedup(HostsOf(nets)) <= Dedup(HostsOf(all))
  {
    var more := all[|nets|..];
    assert all == nets + more;
    HostsOfPrefix(nets, more);
    var some, rest := HostsOf(nets), HostsOf(all)[|HostsOf(nets)|..];
    assert HostsOf(all) == some + rest;
    DedupGrows(some, rest);
  }

  /** What is full after some networks is full after all of them. */
  lemma FullStaysFull(hosts: seq<string>, some: seq<string>, all: seq<string>)
    requires |hosts| == SCAN_ADDRESS_CAP && hosts < some && some <= all
    ensures |all| > SCAN_ADDRESS_CAP && hosts == all[..SCAN_ADDRESS_CAP]
  {
  }

  lemma SelvesOfSnoc(nets: seq<(Addr, MaskSize)>, n: (Addr, MaskSize))
    ensures SelvesOf(nets + [n]) == SelvesOf(nets) + {Print(n.0)}
  {
  }

  /** What has been collected after some networks. */
  ghost predicate Collected(nets: seq<(Addr, MaskSize)>, hosts: seq<string>, selves: set<string>, full: bool) {
    && selves == SelvesOf(nets) && |hosts| <= SCAN_ADDRESS_CAP
    && (if full then |hosts| == SCAN_ADDRESS_CAP && hosts < Dedup(HostsOf(nets)) && Overflows(nets, |nets|)
        else hosts == Dedup(HostsOf(nets)))
  }

  /** One network in scope: this machine's address, then the subnet's hosts. */
  method AddNet(ip: Ip, mask: MaskSize, hosts0: seq<string>, selves0: set<string>,
                ghost nets0: seq<(Addr, MaskSize)>)
    returns (hosts: seq<string>, selves: set<string>, full: bool)
    requires Collected(nets0, hosts0, selves0, false)
    requires Scannable(ip) && mask.ones <= mask.bits
    ensures Collected(nets0 + [(ip.addr, mask)], hosts, selves, full)
  {
    ghost var nets := nets0 + [(ip.addr, mask)];
    assert nets[..|nets| - 1] == nets0;
    SelvesOfSnoc(nets0, (ip.addr, mask));
    selves := selves0 + {Print(ip.addr)};
    var list := SubnetHosts(ip, mask);
    hosts, full := AddHosts(list, hosts0, HostsOf(nets0));
    assert nets[..|nets|] == nets;
  }

  lemma Regroup<T>(a: seq<T>, b: seq<T>, c: seq<T>)
    ensures (a + b) + c == a + (b + c)
    ensures b == [] ==> a + b == a
  {
  }

  /** One interface: visits its addresses in order until the list is full. */
  method AddInterface(addrs: seq<Address>, hosts0: seq<string>, selves0: set<string>,
                      ghost nets0: seq<(Addr, MaskSize)>)
    returns (hosts: seq<string>, selves: set<string>, full: bool, ghost nets: seq<(Addr, MaskSize)>)
    requires Collected(nets0, hosts0, selves0, false) && MasksFit(addrs)
    ensures Collected(nets, hosts, selves, full)
    ensures nets <= nets0 + NetsOf(addrs) && (!full ==> nets == nets0 + NetsOf(addrs))
    ensures !full ==> Collected(nets0 + NetsOf(addrs), hosts, selves, false)
  {
    hosts, selves, full, nets := hosts0, selves0, false, nets0;
    for i := 0 to |addrs|
      invariant nets + NetsOf(addrs[i..]) == nets0 + NetsOf(addrs)
      invariant Collected(nets, hosts, selves, false) && !full
    {
      var a := addrs[i];
      assert NetsOf(addrs[i..]) == NetOf(a) + NetsOf(addrs[i + 1..]);
      Regroup(nets, NetOf(a), NetsOf(addrs[i + 1..]));
      if !a.IpNet? { continue; }
      if !Scannable(a.ip) { continue; }
      hosts, selves, full := AddNet(a.ip, a.mask, hosts, selves, nets);
      nets := nets + NetOf(a);
      if full { return; }
    }
  }

  lemma OverflowsInAll(nets: seq<(Addr, MaskSize)>, all: seq<(Addr, MaskSize)>)
    requires nets <= all && Overflows(nets, |nets|)
    ensures Overflows(all, |nets|) && all[..|nets|] == nets
  {
    assert all[..|nets|] == nets == nets[..|nets|];
    assert all[..|nets| - 1] == nets[..|nets| - 1];
  }

  /** Full before the end: the scope is cut at the cap. */
  lemma CutScope(ifaces: seq<Interface>, nets: seq<(Addr, MaskSize)>, hosts: seq<string>, selves: set<string>)
    requires nets <= Nets(ifaces) && Collected(nets, hosts, selves, true)
    ensures InScope(ifaces, Targets(hosts, selves, true))
  {
    HostListGrows(nets, Nets(ifaces));
    FullStaysFull(hosts, Dedup(HostsOf(nets)), Dedup(HostsOf(Nets(ifaces))));
    var n := |nets|;
    OverflowsInAll(nets, Nets(ifaces));
  }

  lemma WholeScope(ifaces: seq<Interface>, hosts: seq<string>, selves: set<string>)
    requires Collected(Nets(ifaces), hosts, selves, false)
    ensures InScope(ifaces, Targets(hosts, selves, false))
  {
  }

  /** The interfaces are None when listing them failed. */
  method EnumerateScanTargets(interfaces: Option<seq<Interface>>) returns (t: Targets)
    requires interfaces.Some? ==>
               forall i | i in interfaces.value && i.addrs.Some? :: MasksFit(i.addrs.value)
    ensures interfaces.None? ==> t == Targets([], {}, false)
    ensures interfaces.Some? ==> InScope(interfaces.value, t)
    ensures |t.hosts| <= 1024 && (t.truncated ==> |t.hosts| == 1024)
  {
    if interfaces.None? {
      return Targets([], {}, false);
    }
    var ifaces := interfaces.value;
    var hosts: seq<string>, selves: set<string> := [], {};
    ghost var nets: seq<(Addr, MaskSize)> := [];
    for i := 0 to |ifaces|
      invariant nets + Nets(ifaces[i..]) == Nets(ifaces)
      invariant Collected(nets, hosts, selves, false)
    {
      var iface := ifaces[i];
      assert Nets(ifaces[i..]) == IfaceNets(iface) + Nets(ifaces[i + 1..]);
      Regroup(nets, IfaceNets(iface), Nets(ifaces[i + 1..]));
      if !iface.up || iface.loopback || IsVirtualInterface(iface.name) { continue; }
      if iface.addrs.None? { continue; }
      assert nets + IfaceNets(iface) <= Nets(ifaces);
      var full;
      hosts, selves, full, nets := AddInterface(iface.addrs.value, hosts, selves, nets);
      if full {
        CutScope(ifaces, nets, hosts, selves);
        return Targets(hosts, selves, true);
      }
    }
    Regroup(nets, [], []);
    assert ifaces[|ifaces|..] == [];
    assert nets == Nets(ifaces);
    WholeScope(ifaces, hosts, selves);
    t := Targets(hosts, selves, false);
  }

  lemma NoLaterOverflow(nets: seq<(Addr, MaskSize)>, n: nat, m: nat)
    requires n < m && Overflows(nets, n)
    ensures !Overflows(nets, m)
  {
    if m <= |nets| {
      var some, more := nets[..n], nets[..m - 1];
      assert some == more[..n];
      HostListGrows(some, more);
    }
  }

  lemma OverflowsOnce(nets: seq<(Addr, MaskSize)>, n: nat, m: nat)
    requires Overflows(nets, n) && Overflows(nets, m)
    ensures n == m
  {
    if n < m {
      NoLaterOverflow(nets, n, m);
    } else if m < n {
      NoLaterOverflow(nets, m, n);
    }
  }

  /** The interfaces determine the scope, own addresses included. */
  lemma ScopeIsUnique(ifaces: seq<Interface>, a: Targets, b: Targets)
    requires InScope(ifaces, a) && InScope(ifaces, b)
    ensures a == b
  {
    if a.truncated {
      var n: nat :| Overflows(Nets(ifaces), n) && a.selves == SelvesOf(Nets(ifaces)[..n]);
      var m: nat :| Overflows(Nets(ifaces), m) && b.selves == SelvesOf(Nets(ifaces)[..m]);
      OverflowsOnce(Nets(ifaces), n, m);
    }
  }

  /** The scope never lists a host twice, and lists only hosts of local networks. */
  lemma ScopeIsDistinct(ifaces: seq<Interface>, t: Targets)
    requires InScope(ifaces, t)
    ensures Distinct(t.hosts) && forall h | h in t.hosts :: h in HostsOf(Nets(ifaces))
  {
    DedupExact(HostsOf(Nets(ifaces)));
  }
}
