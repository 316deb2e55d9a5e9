/**
 The concurrent scan: one goroutine per host, at most 128 probing at once, hits
 appended to a shared list under a mutex, the list sorted when all are done.

 Every interleaving is a run of the step relation below. The probe is a fixed
 function of the host; cancelling the context may happen at any moment.
 */
module ScanHosts {
  import opened Wrappers
  import opened Text
  import opened Ipv4
  import opened Counting

  const SCAN_CONCURRENCY := 128

  datatype Info = Info(hostname: string, version: string)

  datatype Device = Device(ip: string, hostname: string, version: string, self: bool)

  /** What a scan is given. */
  datatype Job = Job(hosts: seq<string>, selves: set<string>, probe: string -> Option<Info>)

  function Report(job: Job, host: string, info: Info): Device {
    Device(host, info.hostname, info.version, host in job.selves)
  }

  /** A goroutine's progress; what it appended, once it has got that far. */
  datatype Phase =
    | Waiting
    | Admitted
    | Probing
    | Hit(device: Device)
    | Leaving(left: Option<Device>)
    | Done(left: Option<Device>)

  predicate HoldsSlot(p: Phase) {
    !p.Waiting? && !p.Done?
  }

  datatype Scan = Scan(phases: seq<Phase>, inFlight: nat, devices: seq<Device>, cancelled: bool)

  datatype Event =
    | Acquire(i: nat)
    | CheckContext(i: nat)
    | Answer(i: nat, found: Option<Info>)
    | Append(i: nat)
    | Release(i: nat)
    | Cancel

  function Start(job: Job): Scan {
    Scan(seq(|job.hosts|, i => Waiting), 0, [], false)
  }

  /** An answer the probe can give: its own, or a lesser one once cancelled. */
  predicate Possible(job: Job, host: string, cancelled: bool, found: Option<Info>) {
    var answer := job.probe(host);
    found == answer
    || (cancelled && (found == None || (answer.Some? && found == Some(Info("", "")))))
  }

  predicate Enabled(job: Job, s: Scan, e: Event) {
    match e
    case Acquire(i) => i < |s.phases| && s.phases[i].Waiting? && s.inFlight < SCAN_CONCURRENCY
    case CheckContext(i) => i < |s.phases| && s.phases[i].Admitted?
    case Answer(i, found) =>
      i < |s.phases| && s.phases[i].Probing? && i < |job.hosts|
      && Possible(job, job.hosts[i], s.cancelled, found)
    case Append(i) => i < |s.phases| && s.phases[i].Hit?
    case Release(i) => i < |s.phases| && s.phases[i].Leaving? && s.inFlight > 0
    case Cancel => true
  }

  function Apply(job: Job, s: Scan, e: Event): Scan
    requires Enabled(job, s, e)
  {
    match e
    case Acquire(i) => s.(phases := s.phases[i := Admitted], inFlight := s.inFlight + 1)
    case CheckContext(i) => s.(phases := s.phases[i := if s.cancelled then Leaving(None) else Probing])
    case Answer(i, found) =>
      s.(phases := s.phases[i := if found.Some? then Hit(Report(job, job.hosts[i], found.value)) else Leaving(None)])
    case Append(i) =>
      s.(phases := s.phases[i := Leaving(Some(s.phases[i].device))], devices := s.devices + [s.phases[i].device])
    case Release(i) => s.(phases := s.phases[i := Done(s.phases[i].left)], inFlight := s.inFlight - 1)
    case Cancel => s.(cancelled := true)
  }

  /** Runs of the scan: the states it passes through from its start. */
  ghost predicate IsRun(job: Job, states: seq<Scan>, events: seq<Event>) {
    && |states| == |events| + 1 && states[0] == Start(job)
    && forall i | 0 <= i < |events| ::
         Enabled(job, states[i], events[i]) && states[i + 1] == Apply(job, states[i], events[i])
  }

  function Last(states: seq<Scan>): Scan
    requires states != []
  {
    states[|states| - 1]
  }

  predicate AllDone(s: Scan) {
    forall i | 0 <= i < |s.phases| :: s.phases[i].Done?
  }

  // ----- What every run keeps -----

  /** The device a goroutine has appended so far, if any. */
  function Left(p: Phase): Option<Device> {
    if p.Leaving? || p.Done? then p.left else None
  }

  function Bag<T>(o: Option<T>): multiset<T> {
    if o.Some? then multiset{o.value} else multiset{}
  }

  function Appended(p: Phase): multiset<Device> {
    Bag(Left(p))
  }

  lemma BagCount<T>(o: Option<T>, d: T)
    ensures Bag(o)[d] == if o == Some(d) then 1 else 0
  {
  }

  function AllAppended(phases: seq<Phase>): multiset<Device> {
    if phases == [] then multiset{}
    else AllAppended(phases[..|phases| - 1]) + Appended(phases[|phases| - 1])
  }

  lemma AppendedLast(phases: seq<Phase>, last: Phase)
    ensures AllAppended(phases + [last]) == AllAppended(phases) + Appended(last)
  {
    assert (phases + [last])[..|phases|] == phases;
  }

  lemma ExchangeUnder<T>(a: multiset<T>, x: multiset<T>, b: multiset<T>, y: multiset<T>, l: multiset<T>)
    requires a + x == b + y
    ensures (a + l) + x == (b + l) + y
  {
    assert (a + l) + x == (a + x) + l;
    assert (b + l) + y == (b + y) + l;
  }

  lemma {:induction false} AppendedUpdate(phases: seq<Phase>, i: nat, p: Phase)
    requires i < |phases|
    ensures AllAppended(phases[i := p]) + Appended(phases[i]) == AllAppended(phases) + Appended(p)
  {
    var n := |phases| - 1;
    var front, last := phases[..n], phases[n];
    assert phases == front + [last];
    AppendedLast(front, last);
    if i == n {
      assert phases[i := p] == front + [p];
      AppendedLast(front, p);
      assert (AllAppended(front) + Appended(p)) + Appended(last) == (AllAppended(front) + Appended(last)) + Appended(p);
    } else {
      assert phases[i := p] == front[i := p] + [last];
      AppendedLast(front[i := p], last);
      AppendedUpdate(front, i, p);
      ExchangeUnder(AllAppended(front[i := p]), Appended(front[i]), AllAppended(front), Appended(p), Appended(last));
    }
  }

  /** A device that may stand for this host. */
  ghost predicate Honest(job: Job, host: string, cancelled: bool, d: Device) {
    exists info :: Possible(job, host, cancelled, Some(info)) && d == Report(job, host, info)
  }

  /** What a phase says is what the probe can have answered. */
  ghost predicate PhaseOk(job: Job, host: string, cancelled: bool, p: Phase) {
    match p
    case Hit(d) => Honest(job, host, cancelled, d)
    case Leaving(left) => LeftOk(job, host, cancelled, left)
    case Done(left) => LeftOk(job, host, cancelled, left)
    case _ => true
  }

  ghost predicate LeftOk(job: Job, host: string, cancelled: bool, left: Option<Device>) {
    match left
    case Some(d) => Honest(job, host, cancelled, d)
    case None => Possible(job, host, cancelled, None)
  }

  ghost predicate Inv(job: Job, s: Scan) {
    && |s.phases| == |job.hosts|
    && s.inFlight == Count(s.phases, HoldsSlot) <= SCAN_CONCURRENCY
    && multiset(s.devices) == AllAppended(s.phases)
    && forall i | 0 <= i < |s.phases| :: PhaseOk(job, job.hosts[i], s.cancelled, s.phases[i])
  }

  lemma {:induction false} StartAppendsNothing(phases: seq<Phase>)
    requires forall i | 0 <= i < |phases| :: phases[i] == Waiting
    ensures AllAppended(phases) == multiset{}
  {
    if phases != [] {
      StartAppendsNothing(phases[..|phases| - 1]);
    }
  }

  lemma InvStart(job: Job)
    ensures Inv(job, Start(job))
  {
    CountNone(Start(job).phases, HoldsSlot);
    StartAppendsNothing(Start(job).phases);
  }

  lemma StepKeepsCount(job: Job, s: Scan, e: Event)
    requires Inv(job, s) && Enabled(job, s, e)
    ensures var t := Apply(job, s, e);
            |t.phases| == |s.phases| && t.inFlight == Count(t.phases, HoldsSlot) <= SCAN_CONCURRENCY
  {
    if !e.Cancel? {
      CountUpdate(s.phases, e.i, Apply(job, s, e).phases[e.i], HoldsSlot);
    }
  }

  /** Only the append step changes what a goroutine has appended. */
  lemma StepAppends(job: Job, s: Scan, e: Event)
    requires Enabled(job, s, e) && !e.Cancel?
    ensures var before, after := Left(s.phases[e.i]), Left(Apply(job, s, e).phases[e.i]);
            if e.Append? then before == None && after == Some(s.phases[e.i].device) else after == before
  {
  }

  lemma UpdateWithoutAppend(phases: seq<Phase>, i: nat, p: Phase)
    requires i < |phases| && Left(p) == Left(phases[i])
    ensures AllAppended(phases[i := p]) == AllAppended(phases)
  {
    AppendedUpdate(phases, i, p);
    CancelCommon(AllAppended(phases[i := p]), Appended(p), AllAppended(phases), multiset{});
  }

  lemma UpdateWithAppend(phases: seq<Phase>, i: nat, p: Phase, d: Device)
    requires i < |phases| && Left(phases[i]) == None && Left(p) == Some(d)
    ensures AllAppended(phases[i := p]) == AllAppended(phases) + multiset{d}
  {
    AppendedUpdate(phases, i, p);
    assert Appended(phases[i]) == multiset{} && Appended(p) == multiset{d};
  }

  lemma StepKeepsDevices(job: Job, s: Scan, e: Event)
    requires Inv(job, s) && Enabled(job, s, e)
    ensures var t := Apply(job, s, e); multiset(t.devices) == AllAppended(t.phases)
  {
    if !e.Cancel? {
      var p := Apply(job, s, e).phases[e.i];
      StepAppends(job, s, e);
      if e.Append? {
        UpdateWithAppend(s.phases, e.i, p, s.phases[e.i].device);
      } else {
        UpdateWithoutAppend(s.phases, e.i, p);
      }
    }
  }

  lemma CancelCommon<T>(a: multiset<T>, x: multiset<T>, b: multiset<T>, added: multiset<T>)
    requires a + x == b + (x + added)
    ensures a == b + added
  {
    assert forall d :: (a + x)[d] == a[d] + x[d] && (b + (x + added))[d] == b[d] + x[d] + added[d];
  }

  /** The phase a goroutine moves to is again one its probe explains. */
  lemma StepKeepsPhase(job: Job, s: Scan, e: Event)
    requires Inv(job, s) && Enabled(job, s, e) && !e.Cancel?
    ensures PhaseOk(job, job.hosts[e.i], s.cancelled, Apply(job, s, e).phases[e.i])
  {
    assert PhaseOk(job, job.hosts[e.i], s.cancelled, s.phases[e.i]);
    if e.Answer? && e.found.Some? {
      assert Honest(job, job.hosts[e.i], s.cancelled, Report(job, job.hosts[e.i], e.found.value));
    }
  }

  lemma InvStep(job: Job, s: Scan, e: Event)
    requires Inv(job, s) && Enabled(job, s, e)
    ensures Inv(job, Apply(job, s, e))
  {
    StepKeepsCount(job, s, e);
    StepKeepsDevices(job, s, e);
    var t := Apply(job, s, e);
    forall i | 0 <= i < |t.phases| ensures PhaseOk(job, job.hosts[i], t.cancelled, t.phases[i]) {
      assert PhaseOk(job, job.hosts[i], s.cancelled, s.phases[i]);
      if e.Cancel? {
        CancelKeepsPhase(job, job.hosts[i], s.cancelled, s.phases[i]);
      } else if i == e.i {
        StepKeepsPhase(job, s, e);
      }
    }
  }

  lemma CancelKeepsPhase(job: Job, host: string, cancelled: bool, p: Phase)
    requires PhaseOk(job, host, cancelled, p)
    ensures PhaseOk(job, host, true, p)
  {
    forall d | Honest(job, host, cancelled, d) ensures Honest(job, host, true, d) {
      var info :| Possible(job, host, cancelled, Some(info)) && d == Report(job, host, info);
      assert Possible(job, host, true, Some(info));
    }
  }

  /** Every interleaving keeps the invariant; in particular at most 128 probes are in flight. */
  lemma {:induction false} RunsKeepInv(job: Job, states: seq<Scan>, events: seq<Event>)
    requires IsRun(job, states, events)
    ensures forall i | 0 <= i < |states| ::
              Inv(job, states[i]) && Count(states[i].phases, HoldsSlot) <= 128
  {
    InvStart(job);
    if events != [] {
      var n := |events| - 1;
      RunsKeepInv(job, states[..n + 1], events[..n]);
      assert Inv(job, states[..n + 1][n]);
      InvStep(job, states[n], events[n]);
    }
  }

  // ----- Termination without deadlock -----

  function Remaining(p: Phase): nat {
    match p
    case Waiting => 5
    case Admitted => 4
    case Probing => 3
    case Hit(_) => 2
    case Leaving(_) => 1
    case Done(_) => 0
  }

  function Work(phases: seq<Phase>): nat {
    if phases == [] then 0 else Work(phases[..|phases| - 1]) + Remaining(phases[|phases| - 1])
  }

  lemma {:induction false} WorkUpdate(phases: seq<Phase>, i: nat, p: Phase)
    requires i < |phases|
    ensures Work(phases[i := p]) + Remaining(phases[i]) == Work(phases) + Remaining(p)
  {
    var n := |phases| - 1;
    if i == n {
      assert phases[i := p][..n] == phases[..n];
    } else {
      assert phases[i := p][..n] == phases[..n][i := p];
      WorkUpdate(phases[..n], i, p);
    }
  }

  /** Each step but a cancellation brings the scan closer to its end. */
  lemma StepsMakeProgress(job: Job, s: Scan, e: Event)
    requires Enabled(job, s, e) && !e.Cancel?
    ensures Work(Apply(job, s, e).phases) < Work(s.phases)
  {
    WorkUpdate(s.phases, e.i, Apply(job, s, e).phases[e.i]);
  }

  /** While some goroutine is not done, some goroutine can move: the semaphore never deadlocks. */
  lemma NeverStuck(job: Job, s: Scan)
    requires Inv(job, s) && !AllDone(s)
    ensures exists e: Event :: !e.Cancel? && Enabled(job, s, e)
  {
    if i :| 0 <= i < |s.phases| && HoldsSlot(s.phases[i]) {
      CountUpdate(s.phases, i, Waiting, HoldsSlot);
      var e := match s.phases[i]
        case Admitted => CheckContext(i)
        case Probing => Answer(i, job.probe(job.hosts[i]))
        case Hit(_) => Append(i)
        case Leaving(_) => Release(i)
        case _ => Cancel;
      assert Enabled(job, s, e);
    } else {
      CountNone(s.phases, HoldsSlot);
      var i :| 0 <= i < |s.phases| && !s.phases[i].Done?;
      assert Enabled(job, s, Acquire(i));
    }
  }

  // ----- The result -----

  /** The hosts whose probe succeeds. */
  function Hits(job: Job, hosts: seq<string>): multiset<Device> {
    if hosts == [] then multiset{}
    else Hits(job, hosts[..|hosts| - 1]) + HitOf(job, hosts[|hosts| - 1])
  }

  function HitOf(job: Job, host: string): multiset<Device> {
    match job.probe(host)
    case Some(info) => multiset{Report(job, host, info)}
    case None => multiset{}
  }

  lemma DoneIsHit(job: Job, host: string, p: Phase)
    requires p.Done? && PhaseOk(job, host, false, p)
    ensures Appended(p) == HitOf(job, host)
  {
  }

  /** Without cancellation the goroutines append exactly the hits. */
  lemma {:induction false} DoneAppendsHits(job: Job, phases: seq<Phase>, hosts: seq<string>)
    requires |phases| == |hosts|
    requires forall i | 0 <= i < |phases| :: phases[i].Done? && PhaseOk(job, hosts[i], false, phases[i])
    ensures AllAppended(phases) == Hits(job, hosts)
  {
    if phases != [] {
      var n := |phases| - 1;
      assert forall i | 0 <= i < n :: phases[..n][i] == phases[i] && hosts[..n][i] == hosts[i];
      DoneAppendsHits(job, phases[..n], hosts[..n]);
      DoneIsHit(job, hosts[n], phases[n]);
    }
  }

  lemma {:induction false} HitsExact(job: Job, hosts: seq<string>, d: Device)
    ensures d in Hits(job, hosts) <==> d.ip in hosts && d in HitOf(job, d.ip)
  {
    if hosts != [] {
      var n := |hosts| - 1;
      HitsExact(job, hosts[..n], d);
      assert hosts == hosts[..n] + [hosts[n]];
      assert d in HitOf(job, hosts[n]) ==> d.ip == hosts[n];
    }
  }

  /** Every appended device was appended by some goroutine. */
  lemma {:induction false} AppendedBy(phases: seq<Phase>, d: Device) returns (i: nat)
    requires d in AllAppended(phases)
    ensures i < |phases| && Left(phases[i]) == Some(d)
  {
    var n := |phases| - 1;
    BagCount(Left(phases[n]), d);
    if Left(phases[n]) == Some(d) {
      i := n;
    } else {
      i := AppendedBy(phases[..n], d);
    }
  }

  /** Each goroutine reports its own host. */
  ghost predicate Own(hosts: seq<string>, phases: seq<Phase>) {
    && |phases| == |hosts|
    && forall i | 0 <= i < |phases| && Left(phases[i]).Some? :: Left(phases[i]).value.ip == hosts[i]
  }

  lemma InvOwn(job: Job, s: Scan)
    requires Inv(job, s)
    ensures Own(job.hosts, s.phases)
  {
    forall i | 0 <= i < |s.phases| && Left(s.phases[i]).Some?
      ensures Left(s.phases[i]).value.ip == job.hosts[i]
    {
      assert PhaseOk(job, job.hosts[i], s.cancelled, s.phases[i]);
    }
  }

  /** With distinct hosts, no device is appended twice. */
  lemma {:induction false} AppendedOnce(hosts: seq<string>, phases: seq<Phase>, d: Device)
    requires Distinct(hosts) && Own(hosts, phases)
    ensures AllAppended(phases)[d] <= 1
  {
    if phases != [] {
      var n := |phases| - 1;
      assert forall i | 0 <= i < n :: phases[..n][i] == phases[i];
      AppendedOnce(hosts[..n], phases[..n], d);
      BagCount(Left(phases[n]), d);
      assert AllAppended(phases)[d] == AllAppended(phases[..n])[d] + Bag(Left(phases[n]))[d];
      if d in AllAppended(phases[..n]) {
        var i := AppendedBy(phases[..n], d);
        assert d.ip == hosts[i] != hosts[n];
      }
    }
  }

  lemma SameIpSameDevice(hosts: seq<string>, phases: seq<Phase>, a: Device, b: Device)
    requires Distinct(hosts) && Own(hosts, phases)
    requires a in AllAppended(phases) && b in AllAppended(phases)
    ensures a.ip in hosts && b.ip in hosts
    ensures a.ip == b.ip ==> a == b
  {
    var i := AppendedBy(phases, a);
    var j := AppendedBy(phases, b);
    assert a.ip == hosts[i] && b.ip == hosts[j];
  }

  // ----- Sorting -----

  /** Any list an unstable sort may return: the same devices, none before a lesser one. */
  ghost predicate IsSorted(devices: seq<Device>, out: seq<Device>) {
    && multiset(out) == multiset(devices)
    && (forall i | 0 <= i < |out| :: ':' !in out[i].ip)
    && forall i, j | 0 <= i < j < |out| :: !IpLess(out[j].ip, out[i].ip)
  }

  /** The address a device is listed under. */
  function Number(d: Device): int {
    TextNumber(d.ip)
  }

  function TextNumber(ip: string): int {
    match Parse(ip)
    case Some(a) => a
    case None => -1
  }

  ghost predicate StrictlyAscending(out: seq<Device>) {
    forall i, j | 0 <= i < j < |out| :: Number(out[i]) < Number(out[j])
  }

  /** Hosts that are the texts of IPv4 addresses. */
  ghost predicate AllAddresses(hosts: seq<string>) {
    forall h | h in hosts :: Parse(h).Some?
  }

  lemma AddressOrder(hosts: seq<string>, a: Device, b: Device)
    requires AllAddresses(hosts) && a.ip in hosts && b.ip in hosts
    ensures ':' !in a.ip && ':' !in b.ip
    ensures IpLess(a.ip, b.ip) <==> Number(a) < Number(b)
    ensures Number(a) == Number(b) ==> a.ip == b.ip
  {
    ParsedIsPrinted(a.ip);
    ParsedIsPrinted(b.ip);
    IpLessIsNumeric(Parse(a.ip).value, Parse(b.ip).value);
  }

  lemma TwiceInSequence<T>(s: seq<T>, i: nat, j: nat)
    requires i < j < |s| && s[i] == s[j]
    ensures multiset(s)[s[i]] >= 2
  {
    assert s == s[..j] + s[j..];
    assert s[i] in s[..j] && s[j] in s[j..];
  }

  /** In every finished run, cancelled or not, the sorted list is strictly ascending. */
  lemma SortedIsAscending(job: Job, s: Scan, out: seq<Device>)
    requires Inv(job, s) && IsSorted(s.devices, out)
    requires Distinct(job.hosts) && AllAddresses(job.hosts)
    ensures StrictlyAscending(out)
  {
    InvOwn(job, s);
    forall i, j | 0 <= i < j < |out| ensures Number(out[i]) < Number(out[j]) {
      var all := AllAppended(s.phases);
      assert multiset(out) == all;
      assert out[i] in multiset(out) && out[j] in multiset(out);
      SameIpSameDevice(job.hosts, s.phases, out[i], out[j]);
      AddressOrder(job.hosts, out[j], out[i]);
      AppendedOnce(job.hosts, s.phases, out[i]);
      if out[i] == out[j] {
        TwiceInSequence(out, i, j);
      }
    }
  }

  /** The head of an ascending list is its least element. */
  lemma AscendingHead(a: seq<Device>, b: seq<Device>)
    requires StrictlyAscending(a) && StrictlyAscending(b) && multiset(a) == multiset(b) && a != []
    ensures b != [] && b[0] == a[0]
  {
    assert a[0] in multiset(b);
    var i :| 0 <= i < |b| && b[i] == a[0];
    assert b[0] in multiset(a);
    var j :| 0 <= j < |a| && a[j] == b[0];
    assert j > 0 ==> Number(a[0]) < Number(a[j]);
  }

  lemma TailElements<T>(a: seq<T>)
    requires a != []
    ensures multiset(a[1..]) == multiset(a) - multiset{a[0]}
  {
    assert a == [a[0]] + a[1..];
  }

  /** A strictly ascending list is determined by its elements. */
  lemma {:induction false} AscendingIsUnique(a: seq<Device>, b: seq<Device>)
    requires StrictlyAscending(a) && StrictlyAscending(b) && multiset(a) == multiset(b)
    ensures a == b
  {
    if a == [] {
      assert |multiset(b)| == 0;
    } else {
      AscendingHead(a, b);
      TailElements(a);
      TailElements(b);
      AscendingIsUnique(a[1..], b[1..]);
      assert a == [a[0]] + a[1..] && b == [b[0]] + b[1..];
    }
  }

  /** A run to its end, cancelled or not, and a list its sort may return. */
  ghost predicate Ends(job: Job, states: seq<Scan>, events: seq<Event>, out: seq<Device>) {
    IsRun(job, states, events) && AllDone(Last(states)) && IsSorted(Last(states).devices, out)
  }

  /** The same without cancellation. */
  ghost predicate Finishes(job: Job, states: seq<Scan>, events: seq<Event>, out: seq<Device>) {
    Ends(job, states, events, out) && !Last(states).cancelled
  }

  lemma FinishedDevices(job: Job, states: seq<Scan>, events: seq<Event>, out: seq<Device>)
    requires Finishes(job, states, events, out)
    ensures Inv(job, Last(states)) && multiset(out) == Hits(job, job.hosts)
  {
    RunsKeepInv(job, states, events);
    DoneAppendsHits(job, Last(states).phases, job.hosts);
  }

  /** The devices an ideal scan lists: one per host whose probe succeeds. */
  ghost predicate Expected(job: Job, d: Device) {
    d.ip in job.hosts && job.probe(d.ip).Some? && d == Report(job, d.ip, job.probe(d.ip).value)
  }

  lemma ListedExactly(job: Job, states: seq<Scan>, events: seq<Event>, out: seq<Device>, d: Device)
    requires Finishes(job, states, events, out)
    ensures d in out <==> Expected(job, d)
  {
    FinishedDevices(job, states, events, out);
    assert d in out <==> d in multiset(out);
    HitsExact(job, job.hosts, d);
  }

  /**
   Every interleaving and every unstable sort give the same list: the hosts whose probe
   succeeds, each once with its own flag, in strictly ascending numeric order.
   */
  lemma ScanIsDeterministic(job: Job, states1: seq<Scan>, events1: seq<Event>, out1: seq<Device>,
                            states2: seq<Scan>, events2: seq<Event>, out2: seq<Device>)
    requires Finishes(job, states1, events1, out1) && Finishes(job, states2, events2, out2)
    requires Distinct(job.hosts) && AllAddresses(job.hosts)
    ensures out1 == out2 && StrictlyAscending(out1)
    ensures forall d :: d in out1 <==> Expected(job, d)
    ensures forall d ::
              d in out1 <==>
              && d.ip in job.hosts && job.probe(d.ip) == Some(Info(d.hostname, d.version))
              && (d.self <==> d.ip in job.selves)
  {
    FinishedDevices(job, states1, events1, out1);
    FinishedDevices(job, states2, events2, out2);
    SortedIsAscending(job, Last(states1), out1);
    SortedIsAscending(job, Last(states2), out2);
    AscendingIsUnique(out1, out2);
    forall d ensures d in out1 <==> Expected(job, d) {
      ListedExactly(job, states1, events1, out1, d);
    }
  }

  // ----- With cancellation -----

  /** A device whose address was found but whose details were not, as after a cancelled request for them. */
  function Blank(job: Job, host: string): Device {
    Report(job, host, Info("", ""))
  }

  lemma AppendedIsHonest(job: Job, s: Scan, d: Device)
    requires Inv(job, s) && d in AllAppended(s.phases)
    ensures d.ip in job.hosts && job.probe(d.ip).Some?
    ensures Expected(job, d) || (s.cancelled && d == Blank(job, d.ip))
  {
    var i := AppendedBy(s.phases, d);
    assert PhaseOk(job, job.hosts[i], s.cancelled, s.phases[i]);
    assert Honest(job, job.hosts[i], s.cancelled, d);
  }

  ghost predicate IsSubsequence<T>(a: seq<T>, b: seq<T>) {
    a == []
    || (b != [] && ((a[0] == b[0] && IsSubsequence(a[1..], b[1..])) || IsSubsequence(a, b[1..])))
  }

  lemma {:induction false} SubsequenceMembers<T>(a: seq<T>, b: seq<T>, x: T)
    requires IsSubsequence(a, b) && x in a
    ensures x in b
    decreases |b|
  {
    if a[0] == b[0] && IsSubsequence(a[1..], b[1..]) {
      if x != a[0] {
        SubsequenceMembers(a[1..], b[1..], x);
      }
    } else {
      SubsequenceMembers(a, b[1..], x);
    }
  }

  ghost predicate AscendsBy<T>(s: seq<T>, key: T -> int) {
    forall i, j | 0 <= i < j < |s| :: key(s[i]) < key(s[j])
  }

  /** One ascending list is a subsequence of another as soon as its elements are all there. */
  lemma {:induction false} AscendingSubsequence<T>(a: seq<T>, b: seq<T>, key: T -> int)
    requires AscendsBy(a, key) && AscendsBy(b, key)
    requires forall x | x in a :: x in b
    ensures IsSubsequence(a, b)
    decreases |b|
  {
    if a != [] {
      assert a[0] in b;
      var rest := if a[0] == b[0] then a[1..] else a;
      forall x | x in rest ensures x in b[1..] {
        AscendingSkipsHead(a, b, key, x);
      }
      AscendingSubsequence(rest, b[1..], key);
    }
  }

  lemma AscendingSkipsHead<T>(a: seq<T>, b: seq<T>, key: T -> int, x: T)
    requires AscendsBy(a, key) && AscendsBy(b, key) && a != [] && a[0] in b && x in a && x in b
    requires a[0] == b[0] ==> x in a[1..]
    ensures x in b[1..]
  {
    var i :| 0 <= i < |a| && a[i] == x && (a[0] == b[0] ==> i > 0);
    var j :| 0 <= j < |b| && b[j] == x;
    var k :| 0 <= k < |b| && b[k] == a[0];
    assert key(a[0]) <= key(a[i]) && key(b[0]) <= key(b[k]);
    assert j > 0;
    assert b[1..][j - 1] == x;
  }

  function Ips(devices: seq<Device>): (r: seq<string>)
    ensures |r| == |devices| && forall i | 0 <= i < |r| :: r[i] == devices[i].ip
  {
    seq(|devices|, i requires 0 <= i < |devices| => devices[i].ip)
  }

  lemma ListedWhileCancelled(job: Job, states: seq<Scan>, events: seq<Event>, out: seq<Device>, d: Device)
    requires IsRun(job, states, events) && IsSorted(Last(states).devices, out) && d in out
    ensures d.ip in job.hosts && job.probe(d.ip).Some?
    ensures Expected(job, d) || (Last(states).cancelled && d == Blank(job, d.ip))
  {
    RunsKeepInv(job, states, events);
    assert d in multiset(out);
    AppendedIsHonest(job, Last(states), d);
  }

  /**
   What cancelling may change: the addresses listed are a subsequence of those an uncancelled scan
   lists, and each device is as there or has blank details.
   */
  lemma CancelledScanIsSubList(job: Job, states: seq<Scan>, events: seq<Event>, out: seq<Device>,
                               states2: seq<Scan>, events2: seq<Event>, full: seq<Device>)
    requires Ends(job, states, events, out) && Finishes(job, states2, events2, full)
    requires Distinct(job.hosts) && AllAddresses(job.hosts)
    ensures StrictlyAscending(out) && IsSubsequence(Ips(out), Ips(full))
    ensures forall d | d in out :: d in full || (Last(states).cancelled && d == Blank(job, d.ip))
    ensures forall d | d in out ::
              d in full || (d.hostname == d.version == "" && (d.self <==> d.ip in job.selves))
    ensures IsSubsequence(out, full) <==> forall d | d in out :: d in full
  {
    RunsKeepInv(job, states, events);
    RunsKeepInv(job, states2, events2);
    SortedIsAscending(job, Last(states), out);
    SortedIsAscending(job, Last(states2), full);
    forall d | d in out
      ensures d in full || (Last(states).cancelled && d == Blank(job, d.ip))
      ensures d.ip in Ips(full)
    {
      ListedWhileCancelled(job, states, events, out, d);
      ListedExactly(job, states2, events2, full, d);
      var listed := Report(job, d.ip, job.probe(d.ip).value);
      ListedExactly(job, states2, events2, full, listed);
      var i :| 0 <= i < |full| && full[i] == listed;
      assert Ips(full)[i] == d.ip;
    }
    AscendingSubsequence(Ips(out), Ips(full), TextNumber);
    if forall d | d in out :: d in full {
      AscendingSubsequence(out, full, Number);
    }
    if IsSubsequence(out, full) {
      forall d | d in out ensures d in full {
        SubsequenceMembers(out, full, d);
      }
    }
  }

  lemma RunSnoc(job: Job, states: seq<Scan>, events: seq<Event>, e: Event)
    requires IsRun(job, states, events) && Enabled(job, Last(states), e)
    ensures IsRun(job, states + [Apply(job, Last(states), e)], events + [e])
  {
  }

  /** The i-th goroutine has appended `d`, those before the k-th are done, the rest have not begun. */
  ghost predicate Drained(job: Job, s: Scan, i: nat, d: Device, k: nat) {
    && |s.phases| == |job.hosts| && s.cancelled && s.inFlight == 0 && s.devices == [d]
    && forall j | 0 <= j < |s.phases| :: if j < k || j == i then s.phases[j].Done? else s.phases[j].Waiting?
  }

  /** After a cancellation a waiting goroutine takes its slot, sees the context and gives the slot back. */
  lemma SkipOne(job: Job, states: seq<Scan>, events: seq<Event>, j: nat)
    returns (states': seq<Scan>, events': seq<Event>)
    requires IsRun(job, states, events)
    requires var s := Last(states); j < |s.phases| && s.phases[j].Waiting? && s.inFlight == 0 && s.cancelled
    ensures IsRun(job, states', events')
    ensures Last(states') == Last(states).(phases := Last(states).phases[j := Done(None)])
  {
    var s := Last(states);
    var s1 := Apply(job, s, Acquire(j));
    RunSnoc(job, states, events, Acquire(j));
    var s2 := Apply(job, s1, CheckContext(j));
    RunSnoc(job, states + [s1], events + [Acquire(j)], CheckContext(j));
    var s3 := Apply(job, s2, Release(j));
    RunSnoc(job, states + [s1] + [s2], events + [Acquire(j)] + [CheckContext(j)], Release(j));
    states', events' := states + [s1] + [s2] + [s3], events + [Acquire(j)] + [CheckContext(j)] + [Release(j)];
    assert s3.phases == s.phases[j := Done(None)];
  }

  lemma {:induction false} DrainFrom(job: Job, states: seq<Scan>, events: seq<Event>, i: nat, d: Device, k: nat)
    returns (states': seq<Scan>, events': seq<Event>)
    requires IsRun(job, states, events) && k <= |job.hosts| && Drained(job, Last(states), i, d, k)
    ensures IsRun(job, states', events') && AllDone(Last(states')) && Last(states').devices == [d]
    decreases |job.hosts| - k
  {
    states', events' := states, events;
    if k < |job.hosts| {
      if k != i {
        states', events' := SkipOne(job, states, events, k);
      }
      states', events' := DrainFrom(job, states', events', i, d, k + 1);
    }
  }

  /** The i-th goroutine's scan is cancelled between the two requests of its probe. */
  lemma BlankOne(job: Job, i: nat) returns (states: seq<Scan>, events: seq<Event>)
    requires i < |job.hosts| && job.probe(job.hosts[i]).Some?
    ensures IsRun(job, states, events) && Drained(job, Last(states), i, Blank(job, job.hosts[i]), 0)
  {
    var waiting, d := Start(job).phases, Blank(job, job.hosts[i]);
    var s1, s2 := Scan(waiting[i := Admitted], 1, [], false), Scan(waiting[i := Probing], 1, [], false);
    var s3, s4 := s2.(cancelled := true), Scan(waiting[i := Hit(d)], 1, [], true);
    var s5, s6 := Scan(waiting[i := Leaving(Some(d))], 1, [d], true), Scan(waiting[i := Done(Some(d))], 0, [d], true);
    states := [Start(job), s1, s2, s3, s4, s5, s6];
    events := [Acquire(i), CheckContext(i), Cancel, Answer(i, Some(Info("", ""))), Append(i), Release(i)];
  }

  /** Any one device can lose its details: a cancelled scan may list it alone, and blank. */
  lemma CancellingBlanksDetails(job: Job, host: string)
    returns (states: seq<Scan>, events: seq<Event>, out: seq<Device>)
    requires AllAddresses(job.hosts) && host in job.hosts && job.probe(host).Some?
    ensures Ends(job, states, events, out) && out == [Blank(job, host)]
    ensures out == [Device(host, "", "", host in job.selves)]
  {
    var i :| 0 <= i < |job.hosts| && job.hosts[i] == host;
    states, events := BlankOne(job, i);
    states, events := DrainFrom(job, states, events, i, Blank(job, host), 0);
    out := [Blank(job, host)];
    ParsedIsPrinted(host);
    PrintedHasNoColon(Parse(host).value);
  }

  /** Every machine that answers has blank details anyway, as all old ones do. */
  predicate NothingToLose(job: Job) {
    forall h | h in job.hosts && job.probe(h).Some? :: job.probe(h).value == Info("", "")
  }

  /**
   The list of every scan, whenever cancelled, is a sub-list of the uncancelled one exactly when no
   machine that answers has details to lose.
   */
  lemma SubListsExactly(job: Job, states2: seq<Scan>, events2: seq<Event>, full: seq<Device>)
    requires Finishes(job, states2, events2, full)
    requires Distinct(job.hosts) && AllAddresses(job.hosts)
    ensures (forall states, events, out | Ends(job, states, events, out) :: IsSubsequence(out, full))
            <==> NothingToLose(job)
  {
    if NothingToLose(job) {
      forall states, events, out | Ends(job, states, events, out) ensures IsSubsequence(out, full) {
        forall d | d in out ensures d in full {
          ListedWhileCancelled(job, states, events, out, d);
          ListedExactly(job, states2, events2, full, d);
        }
        CancelledScanIsSubList(job, states, events, out, states2, events2, full);
      }
    } else {
      var h :| h in job.hosts && job.probe(h).Some? && job.probe(h).value != Info("", "");
      var states, events, out := CancellingBlanksDetails(job, h);
      assert Ends(job, states, events, out);
      ListedExactly(job, states2, events2, full, Blank(job, h));
      CancelledScanIsSubList(job, states, events, out, states2, events2, full);
      assert Blank(job, h) in out;
    }
  }

  /** Every run ends: it has at most five steps per host besides cancellations. */
  lemma {:induction false} RunsEnd(job: Job, states: seq<Scan>, events: seq<Event>)
    requires IsRun(job, states, events)
    ensures Count(events, (e: Event) => !e.Cancel?) + Work(Last(states).phases) <= 5 * |job.hosts|
  {
    if events == [] {
      WaitingWork(Start(job).phases);
    } else {
      var n := |events| - 1;
      RunsEnd(job, states[..n + 1], events[..n]);
      assert Last(states[..n + 1]) == states[n];
      if !events[n].Cancel? {
        StepsMakeProgress(job, states[n], events[n]);
      }
    }
  }

  lemma {:induction false} WaitingWork(phases: seq<Phase>)
    ensures Work(phases) <= 5 * |phases|
  {
    if phases != [] {
      WaitingWork(phases[..|phases| - 1]);
    }
  }
}
