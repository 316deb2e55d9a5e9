/** The whole LAN scan: the scope feeds the concurrent scan. */
module ScanLan {
  import opened Wrappers
  import opened Text
  import opened Ipv4
  import opened Subnet
  import opened ScanTargets
  import opened ScanHosts

  lemma {:induction false} LocalHostsAreAddresses(nets: seq<(Addr, MaskSize)>, h: string)
    requires h in HostsOf(nets)
    ensures Parse(h).Some?
  {
    var n := |nets| - 1;
    if h in HostsOf(nets[..n]) {
      LocalHostsAreAddresses(nets[..n], h);
    } else {
      var texts := SubnetHostTexts(V4(nets[n].0), nets[n].1);
      var i :| 0 <= i < |texts| && texts[i] == h;
      ParsePrinted(SubnetAddrs(V4(nets[n].0), nets[n].1)[i]);
    }
  }

  /** Whatever the interfaces, the scope is what the scan needs: distinct texts of IPv4 addresses. */
  lemma ScopeFitsScan(ifaces: seq<Interface>, t: Targets)
    requires InScope(ifaces, t)
    ensures Distinct(t.hosts) && AllAddresses(t.hosts)
  {
    ScopeIsDistinct(ifaces, t);
    forall h | h in t.hosts ensures Parse(h).Some? {
      LocalHostsAreAddresses(Nets(ifaces), h);
    }
  }

  /** The addresses of this machine that the scan flags: those on the networks it got to. */
  ghost predicate FlagsSelves(ifaces: seq<Interface>, truncated: bool, d: Device) {
    var nets := Nets(ifaces);
    if truncated then exists n: nat :: Overflows(nets, n) && (d.self <==> d.ip in SelvesOf(nets[..n]))
    else d.self <==> d.ip in SelvesOf(nets)
  }

  /**
   Two whole scans of the same interfaces with the same answers, each enumerating its own scope,
   return the same list and flag: the hosts in scope that answer, each marked as this machine's
   exactly if it is, on every network the enumeration got to.
   */
  lemma ScanLanIsDeterministic(ifaces: seq<Interface>, probe: string -> Option<Info>, t1: Targets, t2: Targets,
                               states1: seq<Scan>, events1: seq<Event>, out1: seq<Device>,
                               states2: seq<Scan>, events2: seq<Event>, out2: seq<Device>)
    requires InScope(ifaces, t1) && InScope(ifaces, t2)
    requires Finishes(Job(t1.hosts, t1.selves, probe), states1, events1, out1)
    requires Finishes(Job(t2.hosts, t2.selves, probe), states2, events2, out2)
    ensures out1 == out2 && t1.truncated == t2.truncated && StrictlyAscending(out1)
    ensures forall d | d in out1 :: d.ip in HostsOf(Nets(ifaces)) && FlagsSelves(ifaces, t1.truncated, d)
    ensures !t1.truncated ==>
              forall h :: h in Ips(out1) <==> h in HostsOf(Nets(ifaces)) && probe(h).Some?
    ensures forall d | d in out1 :: probe(d.ip) == Some(Info(d.hostname, d.version))
  {
    var job := Job(t1.hosts, t1.selves, probe);
    ScopeIsUnique(ifaces, t1, t2);
    ScopeFitsScan(ifaces, t1);
    ScopeIsDistinct(ifaces, t1);
    ScanIsDeterministic(job, states1, events1, out1, states2, events2, out2);
    if !t1.truncated {
      DedupExact(HostsOf(Nets(ifaces)));
      forall h ensures h in Ips(out1) <==> h in t1.hosts && probe(h).Some? {
        IpsExact(job, out1, h);
      }
    }
  }

  lemma IpsExact(job: Job, out: seq<Device>, h: string)
    requires forall d :: d in out <==> Expected(job, d)
    ensures h in Ips(out) <==> h in job.hosts && job.probe(h).Some?
  {
    if job.probe(h).Some? {
      var d := Report(job, h, job.probe(h).value);
      if d in out {
        var i :| 0 <= i < |out| && out[i] == d;
        assert Ips(out)[i] == h;
      }
    }
    if h in Ips(out) {
      var i :| 0 <= i < |out| && Ips(out)[i] == h;
      assert out[i] in out;
    }
  }
}
