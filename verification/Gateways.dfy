/**
 The reload functions and the state with its observers, as the process runs them. Every
 atomic action is logged, so that each method's effect is a run of the transition system.

 The operating system, the probes and the certificate generator answer as they please.
 */
module Gateways {
  import opened Wrappers
  import opened Worlds
  import opened ProbeRetry

  /** What may be registered on the stacks: the two observers of `main`, or any other. */
  datatype ConfigObserver = SaveConfig | ReloadServers | OtherConfig(id: nat)
  datatype PortObserver = SavePort | OtherPort(id: nat)

  /** An observer's invocation: what it saw, and whether it succeeded. */
  datatype Call =
    | ConfigCall(observer: ConfigObserver, seen: Settings, ok: bool)
    | PortCall(portObserver: PortObserver, port: string, ok: bool)

  /** Nothing but steps that leave the settings alone. */
  ghost predicate Continues(before: seq<Event>, after: seq<Event>) {
    before <= after && NoAssign(after[|before|..])
  }

  lemma ContinuesTransitively(a: seq<Event>, b: seq<Event>, c: seq<Event>)
    requires Continues(a, b) && Continues(b, c)
    ensures Continues(a, c)
  {
    forall i | 0 <= i < |c[|a|..]| ensures !c[|a|..][i].Assign? {
      var k := |a| + i;
      assert c[|a|..][i] == c[k];
      if k < |b| {
        assert c[k] == b[k] == b[|a|..][i];
      } else {
        assert c[k] == c[|b|..][k - |b|];
      }
    }
  }

  /** The server answers on the port it was asked for. */
  predicate On(s: Server, port: string) {
    s.bound == port || s.asked == port
  }

  /** The role has the server the settings ask for, or none if they ask for none. */
  ghost predicate RoleConverged(w: World, s: Settings, role: Role) {
    if Wanted(s, role) then Current(w, role).Some? && On(Current(w, role).value, PortOf(s, role))
    else Current(w, role).None?
  }

  ghost predicate Converged(w: World, s: Settings) {
    RoleConverged(w, s, Http) && RoleConverged(w, s, Https)
  }

  /** Some sound state of the process is as these settings ask. */
  ghost predicate Reloadable(s: Settings) {
    exists w: World :: Inv(w) && w.net.starting.Idle? && Converged(w, s)
  }

  /** HTTPS is switched on for the port HTTP is on. */
  predicate Clashes(s: Settings) {
    Canonical(s.gatewayPort) && s.sslEnabled && s.sslPort == s.gatewayPort
  }

  /** Two servers of one process never listen on one port. */
  lemma BoundsDiffer(w: World)
    requires Inv(w) && w.net.starting.Idle? && w.http.Some? && w.https.Some?
    ensures w.http.value.bound != w.https.value.bound
  {
    assert CurrentOk(w, Http) && CurrentOk(w, Https);
    var i, j := w.http.value.id, w.https.value.id;
    assert w.net.live[i].role != w.net.live[j].role;
  }

  lemma ClashNeverConverges(w: World, s: Settings)
    requires Inv(w) && w.net.starting.Idle? && Clashes(s)
    ensures !Converged(w, s)
  {
    assert CurrentOk(w, Http) && CurrentOk(w, Https);
    if w.http.Some? && w.https.Some? {
      BoundsDiffer(w);
    }
    assert s.gatewayPort != "";
  }

  /** So no reload of such settings ever succeeds. */
  lemma ClashIsNotReloadable(s: Settings)
    requires Clashes(s)
    ensures !Reloadable(s)
  {
    forall w: World | Inv(w) && w.net.starting.Idle? ensures !Converged(w, s) {
      ClashNeverConverges(w, s);
    }
  }

  /** Steps that store only these gateway ports. */
  ghost predicate Assigns(before: seq<Event>, after: seq<Event>, ports: set<string>) {
    before <= after
    && forall i | |before| <= i < |after| && after[i].Assign? :: after[i].settings.gatewayPort in ports
  }

  lemma AssignsNothing(before: seq<Event>, after: seq<Event>, ports: set<string>)
    requires Continues(before, after)
    ensures Assigns(before, after, ports)
  {
    forall i | |before| <= i < |after| ensures !after[i].Assign? {
      assert after[i] == after[|before|..][i - |before|];
    }
  }

  lemma AssignsOnce(a: seq<Event>, b: seq<Event>, c: seq<Event>, s: Settings, ports: set<string>)
    requires Continues(a, b) && c == b + [Assign(s)] && s.gatewayPort in ports
    ensures Assigns(a, c, ports)
  {
    AssignsNothing(a, b, ports);
  }

  lemma AssignsThenContinues(a: seq<Event>, b: seq<Event>, c: seq<Event>, ports: set<string>)
    requires Assigns(a, b, ports) && Continues(b, c)
    ensures Assigns(a, c, ports)
  {
    AssignsNothing(b, c, ports);
  }

  /** What a notification that met no failure has achieved, by the observers it called. */
  ghost predicate Settled(w: World, s: Settings, called: seq<ConfigObserver>) {
    && (SaveConfig in called ==> w.file == Some(s) && w.memory == s)
    && (ReloadServers in called ==> Converged(w, s))
  }

  /** What each config observer achieves, and what it leaves alone. */
  ghost predicate Effect(o: ConfigObserver, s: Settings, err: Error, before: World, after: World) {
    && (err == Nil && o == SaveConfig ==> after.file == Some(s) == Some(after.memory))
    && (o != SaveConfig ==> after.file == before.file && after.memory == before.memory)
    && (err == Nil && o == ReloadServers ==> Converged(after, s))
    && (o != ReloadServers ==> after.http == before.http && after.https == before.https)
  }

  /** One more successful observer adds its effect and undoes none. */
  lemma SettledNext(before: World, after: World, s: Settings, o: ConfigObserver,
                    called: seq<ConfigObserver>, err: Error)
    requires Settled(before, s, called) && Effect(o, s, err, before, after)
    ensures err == Nil ==> Settled(after, s, [o] + called)
  {
    if err == Nil && ReloadServers in called && o != ReloadServers {
      assert Converged(after, s);
    }
  }

  /** A notification that runs through, or stops at its first failure. */
  ghost predicate Stopped(err: Error, ran: nat, size: nat) {
    ran <= size && (err == Nil ==> ran == size) && (err == Failed ==> ran > 0)
  }

  /** The newest `n` observers, newest first; all but perhaps the last succeeded. */
  ghost function ConfigCalls(stack: seq<ConfigObserver>, n: nat, seen: Settings, err: Error): seq<Call>
    requires n <= |stack|
  {
    seq(n, k requires 0 <= k < n => ConfigCall(stack[|stack| - 1 - k], seen, k < n - 1 || err == Nil))
  }

  ghost function PortCalls(stack: seq<PortObserver>, n: nat, port: string, err: Error): seq<Call>
    requires n <= |stack|
  {
    seq(n, k requires 0 <= k < n => PortCall(stack[|stack| - 1 - k], port, k < n - 1 || err == Nil))
  }

  lemma ConfigCallsNext(stack: seq<ConfigObserver>, n: nat, seen: Settings, err: Error)
    requires n < |stack|
    ensures ConfigCalls(stack, n, seen, Nil) + [ConfigCall(stack[|stack| - 1 - n], seen, err == Nil)]
         == ConfigCalls(stack, n + 1, seen, err)
  {
  }

  /** Every call succeeded exactly if there was no error; an error is the last call's. */
  lemma ConfigCallsOk(stack: seq<ConfigObserver>, ran: nat, seen: Settings, err: Error)
    requires Stopped(err, ran, |stack|)
    ensures var calls := ConfigCalls(stack, ran, seen, err);
            && ((forall c | c in calls :: c.ok) <==> err == Nil)
            && (err == Failed ==> calls != [] && !calls[|calls| - 1].ok && calls[|calls| - 1].ConfigCall?
                                  && calls[|calls| - 1].seen == seen)
  {
    var calls := ConfigCalls(stack, ran, seen, err);
    if err == Failed {
      assert calls[ran - 1] in calls;
    }
  }

  lemma PortCallsOk(stack: seq<PortObserver>, ran: nat, port: string, err: Error)
    requires Stopped(err, ran, |stack|)
    ensures (forall c | c in PortCalls(stack, ran, port, err) :: c.ok) <==> err == Nil
  {
    if err == Failed {
      assert PortCalls(stack, ran, port, err)[ran - 1] in PortCalls(stack, ran, port, err);
    }
  }

  lemma Regrouped(a: seq<Call>, b: seq<Call>, c: seq<Call>)
    ensures (a + b) + c == a + (b + c)
  {
  }

  lemma NoCalls(before: seq<Call>, ports: seq<PortObserver>, port: string, configs: seq<ConfigObserver>, seen: Settings)
    ensures before == before + PortCalls(ports, 0, port, Nil) == before + ConfigCalls(configs, 0, seen, Nil)
  {
    assert PortCalls(ports, 0, port, Nil) == [] && ConfigCalls(configs, 0, seen, Nil) == [];
  }

  lemma AddConfigCall(before: seq<Call>, stack: seq<ConfigObserver>, n: nat, seen: Settings, err: Error)
    requires n < |stack|
    ensures before + ConfigCalls(stack, n, seen, Nil) + [ConfigCall(stack[|stack| - 1 - n], seen, err == Nil)]
         == before + ConfigCalls(stack, n + 1, seen, err)
  {
    ConfigCallsNext(stack, n, seen, err);
    Regrouped(before, ConfigCalls(stack, n, seen, Nil), [ConfigCall(stack[|stack| - 1 - n], seen, err == Nil)]);
  }

  lemma AddPortCall(before: seq<Call>, stack: seq<PortObserver>, n: nat, port: string, err: Error)
    requires n < |stack|
    ensures before + PortCalls(stack, n, port, Nil) + [PortCall(stack[|stack| - 1 - n], port, err == Nil)]
         == before + PortCalls(stack, n + 1, port, err)
  {
    PortCallsNext(stack, n, port, err);
    Regrouped(before, PortCalls(stack, n, port, Nil), [PortCall(stack[|stack| - 1 - n], port, err == Nil)]);
  }

  lemma PortCallsNext(stack: seq<PortObserver>, n: nat, port: string, err: Error)
    requires n < |stack|
    ensures PortCalls(stack, n, port, Nil) + [PortCall(stack[|stack| - 1 - n], port, err == Nil)]
         == PortCalls(stack, n + 1, port, err)
  {
  }

  // ----- What the calls leave in the config object and in its file -----

  /** The call is of an observer that sets the config object and writes it. */
  predicate Saves(c: Call) {
    match c
    case ConfigCall(o, _, _) => o == SaveConfig
    case PortCall(o, _, _) => o == SavePort
  }

  /** The config object after these calls; it is set whether or not the write succeeds. */
  ghost function MemoryAfter(m: Settings, calls: seq<Call>): Settings {
    if calls == [] then m
    else
      var c := calls[|calls| - 1];
      var before := MemoryAfter(m, calls[..|calls| - 1]);
      if !Saves(c) then before
      else if c.ConfigCall? then c.seen
      else before.(gatewayPort := c.port)
  }

  /** The file is that of the last successful save, unless a failed one has lost it since. */
  ghost predicate OnDisk(m: Settings, start: Option<Settings>, calls: seq<Call>, file: Option<Settings>) {
    if calls == [] then file == start
    else
      var c := calls[|calls| - 1];
      if Saves(c) && c.ok then file == Some(MemoryAfter(m, calls))
      else OnDisk(m, start, calls[..|calls| - 1], file) || (Saves(c) && file == None)
  }

  /** From this config object and file, these calls may lead to those. */
  ghost predicate Recorded(m: Settings, start: Option<Settings>, calls: seq<Call>,
                           memory: Settings, file: Option<Settings>)
  {
    memory == MemoryAfter(m, calls) && OnDisk(m, start, calls, file)
  }

  /** One call: a save sets the config object and, if it succeeds, the file; any other changes neither. */
  lemma RecordedOne(m: Settings, start: Option<Settings>, c: Call, m1: Settings, f1: Option<Settings>)
    requires m1 == if !Saves(c) then m else if c.ConfigCall? then c.seen else m.(gatewayPort := c.port)
    requires if !Saves(c) then f1 == start else if c.ok then f1 == Some(m1) else f1 == start || f1 == None
    ensures Recorded(m, start, [c], m1, f1)
  {
    assert [c][..0] == [];
    assert MemoryAfter(m, []) == m && OnDisk(m, start, [], start);
  }

  lemma RecordedNext(m: Settings, start: Option<Settings>, calls: seq<Call>, c: Call,
                     m1: Settings, f1: Option<Settings>, m2: Settings, f2: Option<Settings>)
    requires Recorded(m, start, calls, m1, f1) && Recorded(m1, f1, [c], m2, f2)
    ensures Recorded(m, start, calls + [c], m2, f2)
  {
    assert (calls + [c])[..|calls|] == calls && [c][..0] == [];
    assert MemoryAfter(m1, []) == m1 && (OnDisk(m1, f1, [], f2) ==> f2 == f1);
  }

  lemma {:induction false} RecordedConcat(m: Settings, start: Option<Settings>, a: seq<Call>, b: seq<Call>,
                                          m1: Settings, f1: Option<Settings>, m2: Settings, f2: Option<Settings>)
    requires Recorded(m, start, a, m1, f1) && Recorded(m1, f1, b, m2, f2)
    ensures Recorded(m, start, a + b, m2, f2)
  {
    if b == [] {
      assert a + b == a;
    } else {
      var n := |b| - 1;
      assert (a + b)[..|a + b| - 1] == a + b[..n] && (a + b)[|a + b| - 1] == b[n];
      RecordedConcatMemory(m, a, b[..n], m1);
      RecordedConcatMemory(m, a, b, m1);
      if !(Saves(b[n]) && b[n].ok) && OnDisk(m1, f1, b[..n], f2) {
        RecordedConcat(m, start, a, b[..n], m1, f1, MemoryAfter(m1, b[..n]), f2);
      }
    }
  }

  lemma {:induction false} RecordedConcatMemory(m: Settings, a: seq<Call>, b: seq<Call>, m1: Settings)
    requires m1 == MemoryAfter(m, a)
    ensures MemoryAfter(m, a + b) == MemoryAfter(m1, b)
  {
    if b == [] {
      assert a + b == a;
    } else {
      var n := |b| - 1;
      assert (a + b)[..|a + b| - 1] == a + b[..n] && (a + b)[|a + b| - 1] == b[n];
      RecordedConcatMemory(m, a, b[..n], m1);
    }
  }

  /** Two stretches of one history of calls join. */
  lemma HistoryJoins(m: Settings, start: Option<Settings>, a: seq<Call>, b: seq<Call>, c: seq<Call>,
                     m1: Settings, f1: Option<Settings>, m2: Settings, f2: Option<Settings>)
    requires a <= b <= c
    requires Recorded(m, start, b[|a|..], m1, f1) && Recorded(m1, f1, c[|b|..], m2, f2)
    ensures Recorded(m, start, c[|a|..], m2, f2)
  {
    assert c[|a|..] == b[|a|..] + c[|b|..];
    RecordedConcat(m, start, b[|a|..], c[|b|..], m1, f1, m2, f2);
  }

  /** After config observers that saw `seen`, the file is `seen` if one saved it, else as before. */
  lemma {:induction false} FileAfterConfigs(m: Settings, start: Option<Settings>, calls: seq<Call>,
                                            seen: Settings, file: Option<Settings>)
    requires forall c | c in calls :: c.ConfigCall? && c.seen == seen
    requires OnDisk(m, start, calls, file) && file.Some?
    ensures file == if ConfigCall(SaveConfig, seen, true) in calls then Some(seen) else start
  {
    if calls != [] {
      var n := |calls| - 1;
      assert calls == calls[..n] + [calls[n]];
      if !(Saves(calls[n]) && calls[n].ok) {
        FileAfterConfigs(m, start, calls[..n], seen, file);
      }
    }
  }

  lemma {:induction false} MemoryAfterPorts(m: Settings, calls: seq<Call>, port: string)
    requires forall c | c in calls :: c.PortCall? && c.port == port
    ensures MemoryAfter(m, calls) == m || MemoryAfter(m, calls) == m.(gatewayPort := port)
    ensures PortCall(SavePort, port, true) in calls ==> MemoryAfter(m, calls) == m.(gatewayPort := port)
  {
    if calls != [] {
      var n := |calls| - 1;
      assert calls == calls[..n] + [calls[n]] && calls[n] in calls;
      MemoryAfterPorts(m, calls[..n], port);
    }
  }

  /** After port observers given `port`, the file holds `port` if one saved it, else it is as before. */
  lemma {:induction false} FileAfterPorts(m: Settings, start: Option<Settings>, calls: seq<Call>,
                                          port: string, file: Option<Settings>)
    requires forall c | c in calls :: c.PortCall? && c.port == port
    requires OnDisk(m, start, calls, file) && file.Some?
    ensures file == if PortCall(SavePort, port, true) in calls then Some(m.(gatewayPort := port)) else start
  {
    if calls != [] {
      var n := |calls| - 1;
      assert calls == calls[..n] + [calls[n]] && calls[n] in calls;
      MemoryAfterPorts(m, calls, port);
      if Saves(calls[n]) && calls[n].ok {
        assert calls[n] == PortCall(SavePort, port, true);
      } else {
        FileAfterPorts(m, start, calls[..n], port, file);
      }
    }
  }

  /** The file can only be lost by a failed save, or not be there from the start and never saved. */
  ghost predicate CanBeLost(start: Option<Settings>, calls: seq<Call>) {
    || (exists c :: c in calls && Saves(c) && !c.ok)
    || (start.None? && forall c | c in calls && Saves(c) :: !c.ok)
  }

  lemma {:induction false} LostOnlyByFailure(m: Settings, start: Option<Settings>, calls: seq<Call>)
    requires OnDisk(m, start, calls, None)
    ensures CanBeLost(start, calls)
  {
    if calls != [] {
      var n := |calls| - 1;
      assert calls == calls[..n] + [calls[n]] && calls[n] in calls;
      if !Saves(calls[n]) {
        LostOnlyByFailure(m, start, calls[..n]);
      }
    }
  }

  /** What a port change leaves in the file. */
  ghost predicate FileAfterSwitch(m: Settings, start: Option<Settings>, since: seq<Call>, port: string,
                                  fields: Settings, file: Option<Settings>)
  {
    if file.None? then CanBeLost(start, since)
    else
      file == if ConfigCall(SaveConfig, fields, true) in since then Some(fields)
              else if PortCall(SavePort, port, true) in since then Some(m.(gatewayPort := port))
              else start
  }

  /** The calls of a port change: port observers, then, if they all succeeded, config observers. */
  ghost function SwitchCalls(ports: seq<PortObserver>, configs: seq<ConfigObserver>, ranPort: nat, ranConfig: nat,
                             port: string, seen: Settings, err: Error): seq<Call>
    requires ranPort <= |ports| && ranConfig <= |configs|
  {
    PortCalls(ports, ranPort, port, if ranConfig == 0 then err else Nil) + ConfigCalls(configs, ranConfig, seen, err)
  }

  /** No reload has accepted settings that clash. */
  ghost predicate ReloadsAreSound(calls: seq<Call>, seen: Settings) {
    ConfigCall(ReloadServers, seen, true) in calls ==> !Clashes(seen)
  }

  // ----- When a reload must succeed -----

  /**
   What the world outside answers to one question: the port a listener gets and whether binding is
   refused, the attempts of a probe, whether a certificate is made, whether a write succeeds or
   loses the file, and whether another observer agrees. A question reads the part it is about.
   */
  datatype Answer = Answer(
    bound: string, refused: bool, attempts: seq<Error>, generated: bool, written: bool, lost: bool, agreed: bool)

  predicate Good(a: Answer) {
    !a.refused && Nil in a.attempts && a.generated && a.written && a.agreed
  }

  ghost predicate GoodFrom(answers: nat -> Answer, n: nat) {
    forall k: nat | k >= n :: Good(answers(k))
  }

  /** The ports the process's listeners hold, a server about to stop included. */
  function Held(net: Net): set<string> {
    set id | id in net.live :: net.live[id].bound
  }

  /** What matters for a bind: the ports the two servers are on, and all the ports held. */
  datatype Sight = Sight(http: Option<string>, https: Option<string>, held: set<string>)

  function BoundPort(server: Option<Server>): Option<string> {
    match server
    case Some(s) => Some(s.bound)
    case None => None
  }

  /** The role's server is on this port, or the port is free for it. */
  predicate Room(current: Option<string>, port: string, held: set<string>) {
    current == Some(port) || port !in held
  }

  /** Ports written as listeners print them, and one for each server. */
  predicate Sensible(s: Settings) {
    && (Wanted(s, Http) ==> Canonical(s.gatewayPort))
    && (Wanted(s, Https) ==> Canonical(s.sslPort))
    && (Wanted(s, Http) && Wanted(s, Https) ==> s.gatewayPort != s.sslPort)
  }

  /** Of settings with ports written so, the sensible are those that do not clash. */
  lemma SensibleExactly(s: Settings)
    requires s.gatewayPort == "" || Canonical(s.gatewayPort)
    requires s.sslPort == "" || Canonical(s.sslPort)
    ensures Sensible(s) <==> !Clashes(s)
  {
  }

  lemma GoodAnswersExist()
    ensures exists answers: nat -> Answer :: GoodFrom(answers, 0)
  {
    var a := Answer("", false, [Nil], true, true, false, true);
    var answers := (k: nat) => a;
    assert GoodFrom(answers, 0);
  }

  /** No listener of the process's own stands in the way of these settings. */
  predicate Clear(v: Sight, s: Settings) {
    && (Wanted(s, Http) ==> Room(v.http, s.gatewayPort, v.held))
    && (Wanted(s, Https) ==> Room(v.https, s.sslPort, v.held))
  }

  /**
   What can be relied on where no listener stands in the way: given good answers there is no error,
   without an error none stands in the way afterwards, and no other port is taken.
   */
  predicate Reliable(before: Sight, after: Sight, s: Settings, good: bool, err: Error) {
    && (Clear(before, s) && good ==> err == Nil)
    && (Clear(before, s) && err == Nil ==> Clear(after, s))
    && after.held <= before.held + {s.gatewayPort, s.sslPort}
  }

  /** What a call, or several in a row, have been shown to do. */
  datatype Fact = Fact(holds: bool)

  function Promised(before: Sight, after: Sight, s: Settings, good: bool, err: Error): Fact {
    Fact(Sensible(s) ==> Reliable(before, after, s, good, err))
  }

  lemma PromiseNext(a: Sight, b: Sight, c: Sight, s: Settings, first: bool, second: bool, err: Error)
    requires Promised(a, b, s, first, Nil).holds && Promised(b, c, s, second, err).holds && (first ==> second)
    ensures Promised(a, c, s, first, err).holds
  {
  }

  /** Leaving the servers alone and taking no port. */
  lemma ReliableWhenQuiet(before: Sight, after: Sight, s: Settings, good: bool, err: Error)
    requires after.http == before.http && after.https == before.https && after.held <= before.held
    requires good ==> err == Nil
    ensures Promised(before, after, s, good, err).holds
  {
  }

  lemma ConvergedIsClear(w: World, s: Settings)
    requires Inv(w) && Converged(w, s) && Sensible(s)
    ensures Clear(SightOf(w), s)
  {
    assert RoleConverged(w, s, Http) && RoleConverged(w, s, Https);
    assert CurrentOk(w, Http) && CurrentOk(w, Https);
  }

  // ----- Observers called in a row -----

  /** The process at one moment, as far as calls are about it. */
  datatype Moment = Moment(world: World, asked: nat)

  function SightOf(w: World): Sight {
    Sight(BoundPort(w.http), BoundPort(w.https), Held(w.net))
  }

  /** One config observer: its effect on servers, config object and file, and when it must succeed. */
  ghost function Observed(o: ConfigObserver, a: Moment, b: Moment, answers: nat -> Answer,
                          s: Settings, err: Error): Fact
  {
    Fact(
      && a.asked <= b.asked && Effect(o, s, err, a.world, b.world)
      && Recorded(a.world.memory, a.world.file, [ConfigCall(o, s, err == Nil)], b.world.memory, b.world.file)
      && (err == Nil && o == ReloadServers ==> !Clashes(s))
      && (o != ReloadServers ==> Held(b.world.net) <= Held(a.world.net))
      && Promised(SightOf(a.world), SightOf(b.world), s, GoodFrom(answers, a.asked), err).holds)
  }

  /** The newest `ran` config observers, the last of them with this result. */
  ghost function ConfigsRun(a: Moment, b: Moment, answers: nat -> Answer, stack: seq<ConfigObserver>, ran: nat,
                            s: Settings, err: Error): Fact
  {
    Fact(
      && ran <= |stack| && a.asked <= b.asked
      && Recorded(a.world.memory, a.world.file, ConfigCalls(stack, ran, s, err), b.world.memory, b.world.file)
      && (err == Nil ==> Settled(b.world, s, stack[|stack| - ran..]))
      && ReloadsAreSound(ConfigCalls(stack, ran, s, err), s)
      && (ReloadServers !in stack ==> Held(b.world.net) <= Held(a.world.net))
      && Promised(SightOf(a.world), SightOf(b.world), s, GoodFrom(answers, a.asked), err).holds)
  }

  lemma ConfigsRunNone(a: Moment, answers: nat -> Answer, stack: seq<ConfigObserver>, s: Settings)
    ensures ConfigsRun(a, a, answers, stack, 0, s, Nil).holds
  {
    assert ConfigCalls(stack, 0, s, Nil) == [] && stack[|stack| - 0..] == [];
  }

  /** One more config observer: what it adds to the calls, to the disk and to what is settled. */
  lemma ConfigsRunNext(a: Moment, b: Moment, c: Moment, answers: nat -> Answer, stack: seq<ConfigObserver>, ran: nat,
                       s: Settings, err: Error)
    requires ConfigsRun(a, b, answers, stack, ran, s, Nil).holds && ran < |stack|
    requires Observed(stack[|stack| - 1 - ran], b, c, answers, s, err).holds
    ensures ConfigsRun(a, c, answers, stack, ran + 1, s, err).holds
  {
    var i := |stack| - 1 - ran;
    SettledNext(b.world, c.world, s, stack[i], stack[i + 1..], err);
    assert stack[i..] == [stack[i]] + stack[i + 1..];
    RecordedNext(a.world.memory, a.world.file, ConfigCalls(stack, ran, s, Nil), ConfigCall(stack[i], s, err == Nil),
                 b.world.memory, b.world.file, c.world.memory, c.world.file);
    ConfigCallsNext(stack, ran, s, err);
    PromiseNext(SightOf(a.world), SightOf(b.world), SightOf(c.world), s,
                GoodFrom(answers, a.asked), GoodFrom(answers, b.asked), err);
  }

  /** Before it nothing more happens than that old servers stop and settings are stored. */
  lemma ConfigsRunAfterQuiet(a: Moment, b: Moment, c: Moment, answers: nat -> Answer, stack: seq<ConfigObserver>,
                             ran: nat, s: Settings, err: Error)
    requires ConfigsRun(b, c, answers, stack, ran, s, err).holds
    requires b.world == a.world.(settings := b.world.settings, net := b.world.net)
    requires Held(b.world.net) <= Held(a.world.net) && a.asked == b.asked
    ensures ConfigsRun(a, c, answers, stack, ran, s, err).holds
  {
    ReliableWhenQuiet(SightOf(a.world), SightOf(b.world), s, true, Nil);
    PromiseAfter(SightOf(a.world), SightOf(b.world), SightOf(c.world), s, GoodFrom(answers, a.asked), err);
  }

  lemma PromiseAfter(a: Sight, b: Sight, c: Sight, s: Settings, good: bool, err: Error)
    requires Promised(a, b, s, true, Nil).holds && Promised(b, c, s, good, err).holds
    ensures Promised(a, c, s, good, err).holds
  {
  }

  /** Port observers leave the servers alone, take no port, and succeed when the answers are good. */
  ghost function PortsRun(a: Moment, b: Moment, answers: nat -> Answer, stack: seq<PortObserver>, ran: nat,
                          port: string, err: Error): Fact
  {
    Fact(
      && ran <= |stack| && a.asked <= b.asked
      && b.world == a.world.(memory := b.world.memory, file := b.world.file, net := b.world.net)
      && Held(b.world.net) <= Held(a.world.net)
      && Recorded(a.world.memory, a.world.file, PortCalls(stack, ran, port, err), b.world.memory, b.world.file)
      && (GoodFrom(answers, a.asked) ==> err == Nil))
  }

  ghost function ObservedPort(o: PortObserver, a: Moment, b: Moment, answers: nat -> Answer,
                              port: string, err: Error): Fact
  {
    Fact(
      && a.asked <= b.asked
      && b.world == a.world.(memory := b.world.memory, file := b.world.file, net := b.world.net)
      && Held(b.world.net) <= Held(a.world.net)
      && Recorded(a.world.memory, a.world.file, [PortCall(o, port, err == Nil)], b.world.memory, b.world.file)
      && (GoodFrom(answers, a.asked) ==> err == Nil))
  }

  lemma PortsRunNone(a: Moment, answers: nat -> Answer, stack: seq<PortObserver>, port: string)
    ensures PortsRun(a, a, answers, stack, 0, port, Nil).holds
  {
    assert PortCalls(stack, 0, port, Nil) == [];
  }

  lemma PortsRunNext(a: Moment, b: Moment, c: Moment, answers: nat -> Answer, stack: seq<PortObserver>, ran: nat,
                     port: string, err: Error)
    requires PortsRun(a, b, answers, stack, ran, port, Nil).holds && ran < |stack|
    requires ObservedPort(stack[|stack| - 1 - ran], b, c, answers, port, err).holds
    ensures PortsRun(a, c, answers, stack, ran + 1, port, err).holds
  {
    RecordedNext(a.world.memory, a.world.file, PortCalls(stack, ran, port, Nil),
                 PortCall(stack[|stack| - 1 - ran], port, err == Nil),
                 b.world.memory, b.world.file, c.world.memory, c.world.file);
    PortCallsNext(stack, ran, port, err);
  }

  /** The port observers' effect on the disk, then the config observers'. */
  lemma SwitchLeaves(ports: seq<PortObserver>, configs: seq<ConfigObserver>, ranPort: nat, ranConfig: nat,
                     port: string, fields: Settings, err: Error,
                     m: Settings, start: Option<Settings>, m1: Settings, f1: Option<Settings>,
                     m2: Settings, f2: Option<Settings>)
    requires ranPort <= |ports| && ranConfig <= |configs|
    requires Recorded(m, start, PortCalls(ports, ranPort, port, if ranConfig == 0 then err else Nil), m1, f1)
    requires Recorded(m1, f1, ConfigCalls(configs, ranConfig, fields, err), m2, f2)
    ensures var calls := SwitchCalls(ports, configs, ranPort, ranConfig, port, fields, err);
            Recorded(m, start, calls, m2, f2) && FileAfterSwitch(m, start, calls, port, fields, f2)
  {
    var a := PortCalls(ports, ranPort, port, if ranConfig == 0 then err else Nil);
    var b := ConfigCalls(configs, ranConfig, fields, err);
    RecordedConcat(m, start, a, b, m1, f1, m2, f2);
    if f2.None? {
      LostOnlyByFailure(m, start, a + b);
    } else {
      FileAfterConfigs(m1, f1, b, fields, f2);
      if ConfigCall(SaveConfig, fields, true) !in b {
        FileAfterPorts(m, start, a, port, f1);
      }
    }
  }

  /** A port change: port observers told the new port, then config observers on the old settings. */
  ghost function SwitchRun(a: Moment, b: Moment, answers: nat -> Answer, ports: seq<PortObserver>,
                           configs: seq<ConfigObserver>, ranPort: nat, ranConfig: nat,
                           port: string, s: Settings, err: Error): Fact
  {
    Fact(
      && Stopped(if ranConfig == 0 then err else Nil, ranPort, |ports|) && ranConfig <= |configs|
      && (err == Nil ==> ranConfig == |configs|) && a.asked <= b.asked
      && (ReloadServers !in configs ==> Held(b.world.net) <= Held(a.world.net))
      && (err == Nil ==> Settled(b.world, s, configs))
      && Promised(SightOf(a.world), SightOf(b.world), s, GoodFrom(answers, a.asked), err).holds
      && var calls := SwitchCalls(ports, configs, ranPort, ranConfig, port, s, err);
         && Recorded(a.world.memory, a.world.file, calls, b.world.memory, b.world.file)
         && FileAfterSwitch(a.world.memory, a.world.file, calls, port, s, b.world.file)
         && ReloadsAreSound(calls, s))
  }

  /** A port observer's failure is the whole change's: no config observer runs. */
  lemma FailedRun(a: Moment, answers: nat -> Answer, configs: seq<ConfigObserver>, s: Settings)
    ensures var none := ConfigCalls(configs, 0, s, Failed);
            none == [] && Recorded(a.world.memory, a.world.file, none, a.world.memory, a.world.file)
  {
  }

  /** The change's calls all succeeded exactly if it did. */
  lemma SwitchCallsOk(ports: seq<PortObserver>, configs: seq<ConfigObserver>, ranPort: nat, ranConfig: nat,
                      port: string, s: Settings, err: Error)
    requires Stopped(if ranConfig == 0 then err else Nil, ranPort, |ports|) && ranConfig <= |configs|
    requires err == Nil ==> ranConfig == |configs|
    ensures (forall c | c in SwitchCalls(ports, configs, ranPort, ranConfig, port, s, err) :: c.ok) <==> err == Nil
  {
    var first := if ranConfig == 0 then err else Nil;
    var a, b := PortCalls(ports, ranPort, port, first), ConfigCalls(configs, ranConfig, s, err);
    PortCallsOk(ports, ranPort, port, first);
    if ranConfig > 0 {
      ConfigCallsOk(configs, ranConfig, s, err);
      if err == Failed {
        assert b[ranConfig - 1] in a + b;
      }
    } else if err == Failed {
      assert a[ranPort - 1] in a + b;
    }
  }

  lemma SwitchRunFrom(a: Moment, b: Moment, c: Moment, answers: nat -> Answer, ports: seq<PortObserver>,
                      configs: seq<ConfigObserver>, ranPort: nat, ranConfig: nat,
                      port: string, s: Settings, first: Error, err: Error)
    requires PortsRun(a, b, answers, ports, ranPort, port, first).holds && Stopped(first, ranPort, |ports|)
    requires if first == Nil
             then ConfigsRun(b, c, answers, configs, ranConfig, s, err).holds && Stopped(err, ranConfig, |configs|)
             else ranConfig == 0 && err == Failed && c == b
    ensures SwitchRun(a, c, answers, ports, configs, ranPort, ranConfig, port, s, err).holds
  {
    assert first == if ranConfig == 0 then err else Nil;
    FailedRun(b, answers, configs, s);
    SwitchLeaves(ports, configs, ranPort, ranConfig, port, s, err, a.world.memory, a.world.file,
                 b.world.memory, b.world.file, c.world.memory, c.world.file);
    ReliableWhenQuiet(SightOf(a.world), SightOf(b.world), s, GoodFrom(answers, a.asked), first);
    if first == Nil {
      PromiseNext(SightOf(a.world), SightOf(b.world), SightOf(c.world), s,
                  GoodFrom(answers, a.asked), GoodFrom(answers, b.asked), err);
      assert configs[|configs| - |configs|..] == configs;
    }
  }

  /** Nothing more happens than that old servers stop and settings are stored. */
  lemma SwitchRunThenQuiet(a: Moment, b: Moment, c: Moment, answers: nat -> Answer, ports: seq<PortObserver>,
                           configs: seq<ConfigObserver>, ranPort: nat, ranConfig: nat, port: string, s: Settings)
    requires SwitchRun(a, b, answers, ports, configs, ranPort, ranConfig, port, s, Nil).holds
    requires c.world == b.world.(settings := c.world.settings, net := c.world.net)
    requires Held(c.world.net) <= Held(b.world.net) && b.asked <= c.asked
    ensures SwitchRun(a, c, answers, ports, configs, ranPort, ranConfig, port, s, Nil).holds
  {
    ReliableWhenQuiet(SightOf(b.world), SightOf(c.world), s, true, Nil);
    PromiseNext(SightOf(a.world), SightOf(b.world), SightOf(c.world), s, GoodFrom(answers, a.asked), true, Nil);
  }

  /** The package variables, the config object and the process's listeners. */
  class Process {
    var gateway: Option<Server>
    var sslGateway: Option<Server>
    var memory: Settings
    var file: Option<Settings>
    var net: Net
    const answers: nat -> Answer
    var asked: nat
    ghost var settings: Settings
    ghost const boot: World
    ghost var log: seq<Event>

    ghost function Now(): World
      reads this
    {
      World(settings, memory, file, gateway, sslGateway, net)
    }

    ghost function Mark(): Moment
      reads this
    {
      Moment(Now(), asked)
    }

    ghost predicate Valid()
      reads this
    {
      Inv(boot) && Legal(boot, log) && Run(boot, log) == Now()
    }

    /** No reload is under way. */
    ghost predicate AtRest()
      reads this
    {
      Valid() && net.starting.Idle?
    }

    ghost predicate SameExceptNet(w: World)
      reads this
    {
      Now() == w.(net := net)
    }

    constructor (memory: Settings, answers: nat -> Answer)
      ensures AtRest() && log == [] && this.answers == answers && asked == 0 && net.live == map[]
      ensures settings == Settings("", false, "", "", "") && gateway == sslGateway == None
      ensures this.memory == memory && file == Some(memory)
    {
      gateway, sslGateway := None, None;
      this.memory, file := memory, Some(memory);
      net := Net(map[], {}, {}, {}, Idle, 0);
      settings := Settings("", false, "", "", "");
      this.answers, asked := answers, 0;
      boot := Fresh(memory);
      log := [];
    }

    ghost method Log(e: Event, before: World)
      requires Inv(boot) && Legal(boot, log) && Run(boot, log) == before
      requires Enabled(before, e) && Apply(before, e) == Now()
      modifies this`log
      ensures Valid() && log == old(log) + [e]
    {
      RunSnoc(boot, log, e);
      log := log + [e];
    }

    /** Any of the goroutines stopping old servers may run here, any number of times. */
    method Yield()
      requires Valid()
      modifies this`net, this`log
      ensures Valid() && Continues(old(log), log) && SameExceptNet(old(Now()))
      ensures net.starting == old(net.starting) && Held(net) <= old(Held(net))
    {
      var more: bool := *;
      while more && net.pending != {}
        invariant Valid() && Continues(old(log), log) && SameExceptNet(old(Now()))
        invariant net.starting == old(net.starting) && Held(net) <= old(Held(net))
        decreases |net.pending|
      {
        ghost var before, logged := Now(), log;
        var id :| id in net.pending;
        net := net.(live := net.live - {id}, pending := net.pending - {id});
        Log(Stop(id), before);
        ContinuesTransitively(old(log), logged, log);
        more := *;
      }
    }

    /** The port a listener asked for `port` gets. */
    function BoundFor(port: string, a: Answer): string {
      if Canonical(port) then port else a.bound
    }

    /** `net.Listen`: fails exactly when it is refused or the port is held. */
    method Listen(role: Role, port: string) returns (server: Option<Server>)
      requires AtRest()
      modifies this`net, this`asked, this`log
      ensures Valid() && Continues(old(log), log) && SameExceptNet(old(Now())) && asked == old(asked) + 1
      ensures server == None ==> net.starting.Idle?
      ensures server.Some? ==> net.starting == Listening(server.value)
                               && server.value.role == role && server.value.asked == port
      ensures var a := answers(old(asked));
              && (server.Some? <==> !a.refused && BoundFor(port, a) !in old(Held(net)))
              && Held(net) <= old(Held(net)) + {BoundFor(port, a)}
    {
      var a := answers(asked);
      asked := asked + 1;
      var bound := BoundFor(port, a);
      if a.refused || !Free(net, bound) {
        return None;
      }
      ghost var before := Now();
      var s := Server(net.next, role, port, bound);
      net := net.(live := net.live[s.id := s], starting := Listening(s), next := net.next + 1);
      Log(Bind(s), before);
      return Some(s);
    }

    /**
     Asking the new server for /ping through the retry helper. A helper still waiting when the
     attempts end counts as failed, so that the code's branch for a failed probe is covered too.
     */
    method Probe() returns (err: Error)
      requires Valid() && net.starting.Listening?
      modifies this`net, this`asked, this`log
      ensures Valid() && Continues(old(log), log) && SameExceptNet(old(Now()))
      ensures asked == old(asked) + 1 && net.live == old(net.live)
      ensures err == Nil <==> Nil in answers(old(asked)).attempts
      ensures err == Nil ==> net.starting == Ready(old(net.starting.server))
      ensures err == Failed ==> net.starting.Idle? && old(net.starting.server).id in net.orphans
    {
      ghost var before := Now();
      var id := net.starting.server.id;
      var attempts := answers(asked).attempts;
      asked := asked + 1;
      var answered, _, _, _ := CheckWithRetry(10, attempts);
      if answered {
        net := net.(probed := net.probed + {id}, starting := Ready(net.starting.server));
        Log(ProbeOk, before);
        return Nil;
      } else {
        net := net.(orphans := net.orphans + {id}, starting := Idle);
        Log(ProbeFail, before);
        return Failed;
      }
    }

    function ServerOf(role: Role): Option<Server>
      reads this
    {
      match role
      case Http => gateway
      case Https => sslGateway
    }

    /** Puts the new server in place; the old one was handed to its goroutine just before. */
    method Install(server: Server)
      requires Valid() && net.starting == Ready(server)
      modifies this`gateway, this`sslGateway, this`net, this`log
      ensures AtRest() && Continues(old(log), log)
      ensures Now() == SetCurrent(old(Now()), server.role, Some(server)).(net := net)
      ensures Held(net) <= old(Held(net))
    {
      ghost var start := log;
      if ServerOf(server.role).Some? {
        ghost var before := Now();
        var id := ServerOf(server.role).value.id;
        net := net.(pending := net.pending + {id}, starting := Handed(server));
        Log(HandOver, before);
        ghost var logged := log;
        Yield();
        ContinuesTransitively(start, logged, log);
      }
      ghost var before, logged := Now(), log;
      match server.role {
        case Http => gateway := Some(server);
        case Https => sslGateway := Some(server);
      }
      net := net.(starting := Idle);
      Log(Swap, before);
      ContinuesTransitively(start, logged, log);
    }

    /** Binds the port and asks the new server to answer; None when either fails. */
    method StartServer(role: Role, port: string) returns (server: Option<Server>)
      requires AtRest()
      modifies this`net, this`asked, this`log
      ensures Valid() && Continues(old(log), log) && SameExceptNet(old(Now())) && old(asked) <= asked
      ensures if server.None? then net.starting.Idle?
              else net.starting == Ready(server.value) && server.value.role == role && server.value.asked == port
      ensures var bind, probe := answers(old(asked)), answers(old(asked) + 1);
              && Held(net) <= old(Held(net)) + {BoundFor(port, bind)}
              && (server.Some? ==> !bind.refused && Nil in probe.attempts)
              && (BoundFor(port, bind) !in old(Held(net)) && !bind.refused && Nil in probe.attempts
                  ==> server.Some?)
    {
      ghost var held, bind := Held(net), answers(asked);
      ghost var bound := BoundFor(port, bind);
      Yield();
      ghost var logged, held1 := log, Held(net);
      server := Listen(role, port);
      ContinuesTransitively(old(log), logged, log);
      assert Held(net) <= held1 + {bound} <= held + {bound};
      assert bound !in held && !bind.refused ==> server.Some?;
      if server.None? { return; }
      logged := log;
      Yield();
      assert Held(net) <= held + {bound} && asked == old(asked) + 1;
      ContinuesTransitively(old(log), logged, log);
      logged := log;
      var err := Probe();
      ContinuesTransitively(old(log), logged, log);
      if err == Failed { server := None; }
    }

    predicate RunsOn(role: Role, port: string)
      reads this
    {
      ServerOf(role).Some? && ServerOf(role).value.bound == port
    }

    /**
     `reloadHTTPGateway` and `reloadHTTPSGateway`, which differ only in the server they replace. On a
     free port it succeeds exactly when the bind is not refused and the new server answers.
     */
    method ReloadServer(role: Role, port: string) returns (err: Error)
      requires AtRest()
      modifies this`gateway, this`sslGateway, this`net, this`asked, this`log
      ensures AtRest() && Continues(old(log), log) && old(asked) <= asked
      ensures err == Nil ==> ServerOf(role).Some? && On(ServerOf(role).value, port)
      ensures err == Failed ==> SameExceptNet(old(Now()))
      ensures Now() == SetCurrent(old(Now()), role, ServerOf(role)).(net := net)
      ensures Canonical(port) ==> Held(net) <= old(Held(net)) + {port}
      ensures old(RunsOn(role, port)) ==> err == Nil && asked == old(asked) && net == old(net)
      ensures var bind, probe := answers(old(asked)), answers(old(asked) + 1);
              !old(RunsOn(role, port)) ==>
                && (err == Nil ==> !bind.refused && Nil in probe.attempts)
                && (BoundFor(port, bind) !in old(Held(net)) && !bind.refused && Nil in probe.attempts
                    ==> err == Nil)
    {
      if ServerOf(role).Some? && ServerOf(role).value.bound == port {
        return Nil;
      }
      var server := StartServer(role, port);
      if server.None? {
        return Failed;
      }
      ghost var logged := log;
      Yield();
      ContinuesTransitively(old(log), logged, log);
      logged := log;
      Install(server.value);
      ContinuesTransitively(old(log), logged, log);
      return Nil;
    }

    /** Drops a server the settings no longer ask for; a goroutine stops it. */
    method RetireServer(role: Role)
      requires AtRest() && !Wanted(settings, role)
      modifies this`gateway, this`sslGateway, this`net, this`log
      ensures AtRest() && Continues(old(log), log)
      ensures Now() == SetCurrent(old(Now()), role, None).(net := net) && net.live == old(net.live)
    {
      if ServerOf(role).Some? {
        ghost var before := Now();
        var id := ServerOf(role).value.id;
        match role {
          case Http => gateway := None;
          case Https => sslGateway := None;
        }
        net := net.(pending := net.pending + {id});
        assert Old(before, role) == {id} && Apply(before, Retire(role)) == Now();
        Log(Retire(role), before);
      }
    }

    /** One of the two servers: brought up on its port if wanted, else dropped. */
    method ReloadRole(role: Role, wanted: bool, port: string) returns (err: Error)
      requires AtRest() && wanted == Wanted(settings, role) && port == PortOf(settings, role)
      modifies this`gateway, this`sslGateway, this`net, this`asked, this`log
      ensures AtRest() && Continues(old(log), log) && old(asked) <= asked
      ensures (wanted ==> Canonical(port)) ==> Held(net) <= old(Held(net)) + {port}
      ensures GoodFrom(answers, old(asked))
              && (wanted ==> Canonical(port) && Room(BoundPort(old(ServerOf(role))), port, old(Held(net))))
              ==> err == Nil
      ensures err == Nil ==> if wanted then ServerOf(role).Some? && On(ServerOf(role).value, port)
                             else ServerOf(role) == None
      ensures err == Failed ==> SameExceptNet(old(Now()))
      ensures Now() == SetCurrent(old(Now()), role, ServerOf(role)).(net := net)
    {
      if wanted {
        err := ReloadServer(role, port);
      } else {
        Yield();
        ghost var logged := log;
        RetireServer(role);
        ContinuesTransitively(old(log), logged, log);
        logged := log;
        Yield();
        ContinuesTransitively(old(log), logged, log);
        err := Nil;
      }
    }

    /** The HTTPS half, with a certificate first if that is what the settings ask for. */
    method ReloadHttps(sslEnabled: bool, sslPort: string, sslCertType: string) returns (err: Error)
      requires AtRest() && sslEnabled == settings.sslEnabled && sslPort == settings.sslPort
      modifies this`gateway, this`sslGateway, this`net, this`asked, this`log
      ensures AtRest() && Continues(old(log), log) && old(asked) <= asked
      ensures (Wanted(settings, Https) ==> Canonical(sslPort)) ==> Held(net) <= old(Held(net)) + {sslPort}
      ensures GoodFrom(answers, old(asked))
              && (Wanted(settings, Https) ==>
                    Canonical(sslPort) && Room(BoundPort(old(sslGateway)), sslPort, old(Held(net))))
              ==> err == Nil
      ensures err == Nil ==> RoleConverged(Now(), settings, Https)
      ensures err == Failed ==> SameExceptNet(old(Now()))
      ensures Now() == SetCurrent(old(Now()), Https, sslGateway).(net := net)
    {
      var wanted := sslEnabled && sslPort != "";
      if wanted && sslCertType == "auto" {
        var generated := answers(asked).generated;
        asked := asked + 1;
        if !generated { return Failed; }
      }
      err := ReloadRole(Https, wanted, sslPort);
    }

    /** `reloadGateways`: HTTP first; a failure leaves the rest undone. */
    method ReloadGateways(state: State) returns (err: Error)
      requires AtRest() && state.Fields() == settings
      modifies this`gateway, this`sslGateway, this`net, this`asked, this`log
      ensures AtRest() && Continues(old(log), log) && old(asked) <= asked
      ensures Promised(SightOf(old(Now())), SightOf(Now()), settings, GoodFrom(answers, old(asked)), err).holds
      ensures err == Nil ==> Converged(Now(), settings)
      ensures err == Failed ==> sslGateway == old(sslGateway)
                                && (gateway == old(gateway) || RoleConverged(Now(), settings, Http))
      ensures Now() == old(Now()).(http := gateway, https := sslGateway, net := net)
    {
      var httpPort := state.gatewayPort;
      err := ReloadRole(Http, httpPort != "", httpPort);
      if err == Failed { return; }
      ghost var logged := log;
      Yield();
      ContinuesTransitively(old(log), logged, log);
      logged := log;
      err := ReloadHttps(state.sslEnabled, state.sslPort, state.sslCertType);
      ContinuesTransitively(old(log), logged, log);
      RunsKeepInv(boot, log);
      if err == Nil && Sensible(settings) {
        ConvergedIsClear(Now(), settings);
      }
    }

    /** Sets the config object's values and writes it, as both of `main`'s saving observers do. */
    method Save(m: Settings) returns (err: Error)
      requires AtRest()
      modifies this`net, this`memory, this`file, this`asked, this`log
      ensures AtRest() && Continues(old(log), log) && asked == old(asked) + 1
      ensures err == Nil <==> answers(old(asked)).written
      ensures Now() == old(Now()).(memory := m, file := file, net := net) && Held(net) <= old(Held(net))
      ensures if err == Nil then file == Some(m) else file == old(file) || file == None
    {
      Yield();
      ghost var logged := log;
      Remember(m);
      ContinuesTransitively(old(log), logged, log);
      logged := log;
      Yield();
      ContinuesTransitively(old(log), logged, log);
      logged := log;
      err := WriteConfig();
      ContinuesTransitively(old(log), logged, log);
    }

    /** Sets the config object's values. */
    method Remember(m: Settings)
      requires AtRest()
      modifies this`memory, this`log
      ensures AtRest() && Continues(old(log), log) && Now() == old(Now()).(memory := m)
    {
      ghost var before := Now();
      memory := m;
      Log(Event.Remember(m), before);
    }

    /** `config.WriteConfig()`: a failed write may leave the old file or lose it. */
    method WriteConfig() returns (err: Error)
      requires AtRest()
      modifies this`file, this`asked, this`log
      ensures AtRest() && Continues(old(log), log) && Now() == old(Now()).(file := file)
      ensures asked == old(asked) + 1 && (err == Nil <==> answers(old(asked)).written)
      ensures if err == Nil then file == Some(memory) else file == old(file) || file == None
    {
      ghost var before := Now();
      var a := answers(asked);
      asked := asked + 1;
      if a.written {
        file := Some(memory);
        Log(Write, before);
        return Nil;
      }
      if a.lost {
        file := None;
        Log(LoseFile, before);
      }
      return Failed;
    }

    /** Runs one config observer; `OtherConfig` ones do not touch this state. */
    method CallConfig(o: ConfigObserver, state: State) returns (err: Error)
      requires AtRest() && state.Fields() == settings
      modifies this`gateway, this`sslGateway, this`net, this`memory, this`file, this`asked, this`log
      ensures AtRest() && Continues(old(log), log) && settings == old(settings)
      ensures Observed(o, old(Mark()), Mark(), answers, settings, err).holds
    {
      ghost var m, f := memory, file;
      match o {
        case SaveConfig =>
          err := Save(state.Fields());
          ReliableWhenQuiet(SightOf(old(Now())), SightOf(Now()), settings, GoodFrom(answers, old(asked)), err);
        case ReloadServers =>
          err := ReloadGateways(state);
          RunsKeepInv(boot, log);
          if Clashes(settings) { ClashNeverConverges(Now(), settings); }
        case OtherConfig(_) =>
          Yield();
          err := if answers(asked).agreed then Nil else Failed;
          asked := asked + 1;
          ReliableWhenQuiet(SightOf(old(Now())), SightOf(Now()), settings, GoodFrom(answers, old(asked)), err);
      }
      RecordedOne(m, f, ConfigCall(o, settings, err == Nil), memory, file);
    }

    method CallPort(o: PortObserver, port: string) returns (err: Error)
      requires AtRest()
      modifies this`net, this`memory, this`file, this`asked, this`log
      ensures AtRest() && Continues(old(log), log)
      ensures ObservedPort(o, old(Mark()), Mark(), answers, port, err).holds
    {
      ghost var m, f := memory, file;
      match o {
        case SavePort =>
          err := Save(memory.(gatewayPort := port));
        case OtherPort(_) =>
          Yield();
          err := if answers(asked).agreed then Nil else Failed;
          asked := asked + 1;
      }
      RecordedOne(m, f, PortCall(o, port, err == Nil), memory, file);
    }

    /** The state's fields changed; no reload is under way then. */
    ghost method Note(s: Settings)
      requires AtRest()
      modifies this`settings, this`log
      ensures AtRest() && log == old(log) + [Assign(s)] && Now() == old(Now()).(settings := s)
    {
      var before := Now();
      settings := s;
      Log(Assign(s), before);
    }
  }

  /** `service.State`: five fields and two stacks of observers, called newest first. */
  class State {
    var gatewayPort: string
    var sslEnabled: bool
    var sslPort: string
    var sslDomain: string
    var sslCertType: string
    var onGatewayPortChange: seq<PortObserver>
    var onGatewayConfigChange: seq<ConfigObserver>
    const process: Process
    ghost var calls: seq<Call>

    function Fields(): Settings
      reads this
    {
      Settings(gatewayPort, sslEnabled, sslPort, sslDomain, sslCertType)
    }

    ghost predicate Valid()
      reads this, process
    {
      process.AtRest() && process.settings == Fields()
    }

    constructor (process: Process)
      requires process.AtRest() && process.settings == Settings("", false, "", "", "")
      ensures Valid() && this.process == process && calls == []
      ensures Fields() == Settings("", false, "", "", "")
      ensures onGatewayPortChange == [] && onGatewayConfigChange == []
    {
      gatewayPort, sslEnabled, sslPort, sslDomain, sslCertType := "", false, "", "", "";
      onGatewayPortChange, onGatewayConfigChange := [], [];
      this.process := process;
      calls := [];
    }

    method OnGatewayPortChange(o: PortObserver)
      requires Valid()
      modifies this`onGatewayPortChange
      ensures Valid() && onGatewayPortChange == old(onGatewayPortChange) + [o]
    {
      onGatewayPortChange := onGatewayPortChange + [o];
    }

    method OnGatewayConfigChange(o: ConfigObserver)
      requires Valid()
      modifies this`onGatewayConfigChange
      ensures Valid() && onGatewayConfigChange == old(onGatewayConfigChange) + [o]
    {
      onGatewayConfigChange := onGatewayConfigChange + [o];
    }

    /** The calls made since `before` explain what is in the config object and in the file. */
    ghost predicate History(m: Settings, start: Option<Settings>, before: seq<Call>)
      reads this, process
    {
      before <= calls && Recorded(m, start, calls[|before|..], process.memory, process.file)
    }

    method CallNextConfig(i: nat, ghost ran: nat, ghost a: Moment) returns (err: Error)
      requires Valid() && ran < |onGatewayConfigChange| && i == |onGatewayConfigChange| - 1 - ran
      requires ConfigsRun(a, process.Mark(), process.answers, onGatewayConfigChange, ran, Fields(), Nil).holds
      modifies process
      ensures Valid() && Continues(old(process.log), process.log)
      ensures ConfigsRun(a, process.Mark(), process.answers, onGatewayConfigChange, ran + 1, Fields(), err).holds
    {
      ghost var b := process.Mark();
      err := process.CallConfig(onGatewayConfigChange[i], this);
      ConfigsRunNext(a, b, process.Mark(), process.answers, onGatewayConfigChange, ran, Fields(), err);
    }

    /** Calls config observers newest first until one fails. */
    method NotifyConfig() returns (err: Error, ghost ran: nat)
      requires Valid()
      modifies process, this`calls
      ensures Valid() && Continues(old(process.log), process.log)
      ensures Stopped(err, ran, |onGatewayConfigChange|)
      ensures calls == old(calls) + ConfigCalls(onGatewayConfigChange, ran, Fields(), err)
      ensures ConfigsRun(old(process.Mark()), process.Mark(), process.answers,
                         onGatewayConfigChange, ran, Fields(), err).holds
    {
      err, ran := Nil, 0;
      var i := |onGatewayConfigChange|;
      ghost var a := process.Mark();
      ConfigsRunNone(a, process.answers, onGatewayConfigChange, Fields());
      NoCalls(calls, onGatewayPortChange, "", onGatewayConfigChange, Fields());
      while i > 0
        invariant Valid() && Continues(old(process.log), process.log)
        invariant 0 <= i <= |onGatewayConfigChange| && ran == |onGatewayConfigChange| - i && err == Nil
        invariant calls == old(calls) + ConfigCalls(onGatewayConfigChange, ran, Fields(), Nil)
        invariant ConfigsRun(a, process.Mark(), process.answers, onGatewayConfigChange, ran, Fields(), Nil).holds
      {
        i := i - 1;
        ghost var logged := process.log;
        err := CallNextConfig(i, ran, a);
        ContinuesTransitively(old(process.log), logged, process.log);
        AddConfigCall(old(calls), onGatewayConfigChange, ran, Fields(), err);
        calls := calls + [ConfigCall(onGatewayConfigChange[i], Fields(), err == Nil)];
        ran := ran + 1;
        if err == Failed { return; }
      }
    }

    method CallNextPort(i: nat, port: string, ghost ran: nat, ghost a: Moment) returns (err: Error)
      requires Valid() && ran < |onGatewayPortChange| && i == |onGatewayPortChange| - 1 - ran
      requires PortsRun(a, process.Mark(), process.answers, onGatewayPortChange, ran, port, Nil).holds
      modifies process
      ensures Valid() && Continues(old(process.log), process.log)
      ensures PortsRun(a, process.Mark(), process.answers, onGatewayPortChange, ran + 1, port, err).holds
    {
      ghost var b := process.Mark();
      err := process.CallPort(onGatewayPortChange[i], port);
      PortsRunNext(a, b, process.Mark(), process.answers, onGatewayPortChange, ran, port, err);
    }

    /** Calls port observers newest first until one fails. */
    method NotifyPort(port: string) returns (err: Error, ghost ran: nat)
      requires Valid()
      modifies process, this`calls
      ensures Valid() && Continues(old(process.log), process.log)
      ensures Stopped(err, ran, |onGatewayPortChange|)
      ensures calls == old(calls) + PortCalls(onGatewayPortChange, ran, port, err)
      ensures PortsRun(old(process.Mark()), process.Mark(), process.answers,
                       onGatewayPortChange, ran, port, err).holds
    {
      err, ran := Nil, 0;
      var i := |onGatewayPortChange|;
      ghost var a := process.Mark();
      PortsRunNone(a, process.answers, onGatewayPortChange, port);
      NoCalls(calls, onGatewayPortChange, port, onGatewayConfigChange, Fields());
      while i > 0
        invariant Valid() && Continues(old(process.log), process.log)
        invariant 0 <= i <= |onGatewayPortChange| && ran == |onGatewayPortChange| - i && err == Nil
        invariant calls == old(calls) + PortCalls(onGatewayPortChange, ran, port, Nil)
        invariant PortsRun(a, process.Mark(), process.answers, onGatewayPortChange, ran, port, Nil).holds
      {
        i := i - 1;
        ghost var logged := process.log;
        err := CallNextPort(i, port, ran, a);
        ContinuesTransitively(old(process.log), logged, process.log);
        AddPortCall(old(calls), onGatewayPortChange, ran, port, err);
        calls := calls + [PortCall(onGatewayPortChange[i], port, err == Nil)];
        ran := ran + 1;
        if err == Failed { return; }
      }
    }

    /** What a port change has called, what the observers saw and did, and when it must succeed. */
    ghost predicate Announced(a: Moment, before: seq<Call>, port: string, seen: Settings,
                              ranPort: nat, ranConfig: nat, err: Error)
      reads this, process
    {
      && SwitchRun(a, process.Mark(), process.answers, onGatewayPortChange, onGatewayConfigChange,
                   ranPort, ranConfig, port, seen, err).holds
      && calls == before + SwitchCalls(onGatewayPortChange, onGatewayConfigChange, ranPort, ranConfig, port, seen, err)
    }

    /** Port observers are told the new port; then config observers run, on the old settings. */
    method Announce(port: string) returns (err: Error, ghost ranPort: nat, ghost ranConfig: nat)
      requires Valid()
      modifies process, this`calls
      ensures Valid() && Continues(old(process.log), process.log)
      ensures Announced(old(process.Mark()), old(calls), port, Fields(), ranPort, ranConfig, err)
    {
      ghost var a, logged0, called := process.Mark(), process.log, calls;
      ranConfig := 0;
      err, ranPort := NotifyPort(port);
      ghost var b, logged, first := process.Mark(), process.log, err;
      if err == Nil {
        err, ranConfig := NotifyConfig();
        ContinuesTransitively(logged0, logged, process.log);
      }
      SwitchRunFrom(a, b, process.Mark(), process.answers, onGatewayPortChange, onGatewayConfigChange,
                    ranPort, ranConfig, port, Fields(), first, err);
      Regrouped(called, PortCalls(onGatewayPortChange, ranPort, port, first),
                ConfigCalls(onGatewayConfigChange, ranConfig, Fields(), err));
    }

    /**
     The port is stored only after every observer has succeeded, so they all see the old one. The
     port observer has written the new port by then, and nothing takes it back when a later one fails.
     */
    method SetGatewayPort(port: string) returns (err: Error, ghost ranPort: nat, ghost ranConfig: nat)
      requires Valid()
      modifies process, this`gatewayPort, this`calls
      ensures Valid() && Assigns(old(process.log), process.log, {port})
      ensures Fields() == if err == Nil then old(Fields()).(gatewayPort := port) else old(Fields())
      ensures Announced(old(process.Mark()), old(calls), port, old(Fields()), ranPort, ranConfig, err)
      ensures History(old(process.memory), old(process.file), old(calls))
      ensures err == Nil <==> forall c | c in calls[|old(calls)|..] :: c.ok
      ensures err == Nil ==> Settled(process.Now(), old(Fields()), onGatewayConfigChange)
    {
      ghost var a, fields := process.Mark(), Fields();
      err, ranPort, ranConfig := Announce(port);
      AssignsNothing(old(process.log), process.log, {port});
      assert calls[|old(calls)|..]
          == SwitchCalls(onGatewayPortChange, onGatewayConfigChange, ranPort, ranConfig, port, fields, err);
      SwitchCallsOk(onGatewayPortChange, onGatewayConfigChange, ranPort, ranConfig, port, fields, err);
      if err == Nil {
        ghost var logged, b := process.log, process.Mark();
        process.Yield();
        ContinuesTransitively(old(process.log), logged, process.log);
        logged := process.log;
        gatewayPort := port;
        process.Note(Fields());
        SwitchRunThenQuiet(a, b, process.Mark(), process.answers, onGatewayPortChange, onGatewayConfigChange,
                           ranPort, ranConfig, port, fields);
        AssignsOnce(old(process.log), logged, process.log, Fields(), {port});
      }
    }

    /** What a setter that stores first and notifies afterwards has called and done, and when it must succeed. */
    ghost predicate Notified(a: Moment, before: seq<Call>, ran: nat, err: Error)
      reads this, process
    {
      && Stopped(err, ran, |onGatewayConfigChange|)
      && calls == before + ConfigCalls(onGatewayConfigChange, ran, Fields(), err)
      && ConfigsRun(a, process.Mark(), process.answers, onGatewayConfigChange, ran, Fields(), err).holds
      && (err == Nil ==> Settled(process.Now(), Fields(), onGatewayConfigChange))
    }

    /** The SSL setters store first and notify afterwards. */
    method NotifyAfter(ghost before: World, ghost logged: seq<Event>) returns (err: Error, ghost ran: nat)
      requires process.AtRest() && process.Now() == before && process.log == logged
      requires before.settings.gatewayPort == gatewayPort
      modifies process, this`calls
      ensures Valid() && Assigns(logged, process.log, {gatewayPort})
      ensures Notified(old(process.Mark()), old(calls), ran, err)
      ensures History(old(process.memory), old(process.file), old(calls))
    {
      ghost var a := process.Mark();
      process.Yield();
      ghost var quiet := process.log;
      process.Note(Fields());
      ghost var b, noted := process.Mark(), process.log;
      AssignsOnce(logged, quiet, noted, Fields(), {gatewayPort});
      err, ran := NotifyConfig();
      AssignsThenContinues(logged, noted, process.log, {gatewayPort});
      ConfigsRunAfterQuiet(a, b, process.Mark(), process.answers, onGatewayConfigChange, ran, Fields(), err);
      assert calls[|old(calls)|..] == ConfigCalls(onGatewayConfigChange, ran, Fields(), err);
      assert err == Nil ==> onGatewayConfigChange[|onGatewayConfigChange| - ran..] == onGatewayConfigChange;
    }

    method SetSSLEnabled(enabled: bool) returns (err: Error, ghost ran: nat)
      requires Valid()
      modifies process, this`sslEnabled, this`calls
      ensures Valid() && Assigns(old(process.log), process.log, {gatewayPort})
      ensures Fields() == old(Fields()).(sslEnabled := enabled)
      ensures Notified(old(process.Mark()), old(calls), ran, err)
      ensures History(old(process.memory), old(process.file), old(calls))
    {
      sslEnabled := enabled;
      err, ran := NotifyAfter(process.Now(), process.log);
    }

    method SetSSLPort(port: string) returns (err: Error, ghost ran: nat)
      requires Valid()
      modifies process, this`sslPort, this`calls
      ensures Valid() && Assigns(old(process.log), process.log, {gatewayPort})
      ensures Fields() == old(Fields()).(sslPort := port)
      ensures Notified(old(process.Mark()), old(calls), ran, err)
      ensures History(old(process.memory), old(process.file), old(calls))
    {
      sslPort := port;
      err, ran := NotifyAfter(process.Now(), process.log);
    }

    method SetSSLDomain(domain: string) returns (err: Error, ghost ran: nat)
      requires Valid()
      modifies process, this`sslDomain, this`calls
      ensures Valid() && Assigns(old(process.log), process.log, {gatewayPort})
      ensures Fields() == old(Fields()).(sslDomain := domain)
      ensures Notified(old(process.Mark()), old(calls), ran, err)
      ensures History(old(process.memory), old(process.file), old(calls))
    {
      sslDomain := domain;
      err, ran := NotifyAfter(process.Now(), process.log);
    }

    method SetSSLCertType(certType: string) returns (err: Error, ghost ran: nat)
      requires Valid()
      modifies process, this`sslCertType, this`calls
      ensures Valid() && Assigns(old(process.log), process.log, {gatewayPort})
      ensures Fields() == old(Fields()).(sslCertType := certType)
      ensures Notified(old(process.Mark()), old(calls), ran, err)
      ensures History(old(process.memory), old(process.file), old(calls))
    {
      sslCertType := certType;
      err, ran := NotifyAfter(process.Now(), process.log);
    }
  }
}
