/**
 Management requests and startup: what whole calls, and whole runs of calls, achieve.
 Requests are served one at a time.
 */
module GatewayRuns {
  import opened Wrappers
  import opened Text
  import opened Worlds
  import opened Gateways

  // ----- The SSL setters -----

  datatype SSLChange = Enable(enabled: bool) | MoveTo(port: string) | Rename(domain: string) | Certify(certType: string)

  function WithSSL(s: Settings, change: SSLChange): Settings {
    match change
    case Enable(enabled) => s.(sslEnabled := enabled)
    case MoveTo(port) => s.(sslPort := port)
    case Rename(domain) => s.(sslDomain := domain)
    case Certify(certType) => s.(sslCertType := certType)
  }

  /** Any one of the four setters. */
  method ChangeSSL(state: State, change: SSLChange) returns (err: Error, ghost ran: nat)
    requires state.Valid()
    modifies state.process, state`sslEnabled, state`sslPort, state`sslDomain, state`sslCertType, state`calls
    ensures state.Valid() && Assigns(old(state.process.log), state.process.log, {state.gatewayPort})
    ensures state.Fields() == WithSSL(old(state.Fields()), change)
    ensures state.Notified(old(state.process.Mark()), old(state.calls), ran, err)
    ensures state.History(old(state.process.memory), old(state.process.file), old(state.calls))
  {
    match change {
      case Enable(enabled) => err, ran := state.SetSSLEnabled(enabled);
      case MoveTo(port) => err, ran := state.SetSSLPort(port);
      case Rename(domain) => err, ran := state.SetSSLDomain(domain);
      case Certify(certType) => err, ran := state.SetSSLCertType(certType);
    }
  }

  // ----- SetSSLConfig -----

  datatype SSLConfig = SSLConfig(enabled: bool, port: string, domain: string, certType: string)

  /** The settings after the first `n` of the four SSL setters. */
  function SSLPrefix(s: Settings, c: SSLConfig, n: nat): Settings {
    Settings(s.gatewayPort,
             if n >= 1 then c.enabled else s.sslEnabled,
             if n >= 2 then c.port else s.sslPort,
             if n >= 3 then c.domain else s.sslDomain,
             if n >= 4 then c.certType else s.sslCertType)
  }

  /** The setters' calls while none fails: each notifies the whole stack, on the settings stored by then. */
  ghost function SSLCalls(stack: seq<ConfigObserver>, s: Settings, c: SSLConfig, n: nat): seq<Call> {
    if n == 0 then [] else SSLCalls(stack, s, c, n - 1) + ConfigCalls(stack, |stack|, SSLPrefix(s, c, n), Nil)
  }

  lemma {:induction false} SSLCallsOk(stack: seq<ConfigObserver>, s: Settings, c: SSLConfig, n: nat)
    ensures forall call | call in SSLCalls(stack, s, c, n) :: call.ok
  {
    if n > 0 {
      SSLCallsOk(stack, s, c, n - 1);
      ConfigCallsOk(stack, |stack|, SSLPrefix(s, c, n), Nil);
    }
  }

  /** Before the request no listener stands in the way of it, nor of its first step on the old HTTPS port. */
  predicate SSLPossible(v: Sight, s: Settings, c: SSLConfig) {
    && Sensible(SSLPrefix(s, c, 1)) && Sensible(SSLPrefix(s, c, 2)) && Clear(v, SSLPrefix(s, c, 1))
    && (c.enabled && c.port != "" && c.port != s.sslPort ==> c.port !in v.held)
  }

  /** A request is possible where the servers are as stored and the ports it may need are free. */
  lemma RequestIsPossible(w: World, s: Settings, c: SSLConfig)
    requires Inv(w) && Converged(w, s) && Sensible(s)
    requires Sensible(SSLPrefix(s, c, 1)) && Sensible(SSLPrefix(s, c, 2))
    requires c.enabled && !s.sslEnabled && s.sslPort != "" ==> Free(w.net, s.sslPort)
    requires c.enabled && c.port != "" && c.port != s.sslPort ==> Free(w.net, c.port)
    ensures SSLPossible(SightOf(w), s, c)
  {
    ConvergedIsClear(w, s);
  }

  /** What can be relied on after `n` setters of a possible request. */
  function SSLPromised(a: Sight, b: Sight, s: Settings, c: SSLConfig, n: nat, good: bool, err: Error): Fact {
    Fact(SSLPossible(a, s, c) ==>
           && (good ==> err == Nil)
           && (err == Nil && n > 0 ==> Clear(b, SSLPrefix(s, c, n)))
           && (n == 0 ==> b == a)
           && (n == 1 ==> b.held <= a.held + {s.gatewayPort, s.sslPort}))
  }

  lemma SSLPromiseNext(a: Sight, b: Sight, d: Sight, s: Settings, c: SSLConfig, n: nat,
                       good: bool, here: bool, err: Error)
    requires SSLPromised(a, b, s, c, n, good, Nil).holds && n < 4 && (good ==> here)
    requires Promised(b, d, SSLPrefix(s, c, n + 1), here, err).holds
    ensures SSLPromised(a, d, s, c, n + 1, good, err).holds
  {
    var before, after := SSLPrefix(s, c, n), SSLPrefix(s, c, n + 1);
    if n >= 2 {
      assert before.gatewayPort == after.gatewayPort && before.sslPort == after.sslPort;
    }
  }

  /** The calls of a request that has begun: of its first `n` setters, the last of them with this result. */
  ghost function CallsSoFar(stack: seq<ConfigObserver>, s: Settings, c: SSLConfig,
                            n: nat, ran: nat, err: Error): seq<Call>
  {
    if n == 0 then []
    else if ran > |stack| then []
    else SSLCalls(stack, s, c, n - 1) + ConfigCalls(stack, ran, SSLPrefix(s, c, n), err)
  }

  /** What those setters have called, recorded, settled and left in the way. */
  ghost function Begun(a: Moment, b: Moment, calls: seq<Call>, answers: nat -> Answer, stack: seq<ConfigObserver>,
                       s: Settings, c: SSLConfig, n: nat, ran: nat, err: Error): Fact
  {
    Fact(
      && a.asked <= b.asked && calls == CallsSoFar(stack, s, c, n, ran, err)
      && Recorded(a.world.memory, a.world.file, calls, b.world.memory, b.world.file)
      && SSLPromised(SightOf(a.world), SightOf(b.world), s, c, n, GoodFrom(answers, a.asked), err).holds
      && if n == 0 then err == Nil
         else
           && Stopped(err, ran, |stack|)
           && (err == Nil ==> Settled(b.world, SSLPrefix(s, c, n), stack))
           && (err == Nil && ReloadServers in stack ==> !Clashes(SSLPrefix(s, c, n))))
  }

  lemma BegunNone(a: Moment, answers: nat -> Answer, stack: seq<ConfigObserver>, s: Settings, c: SSLConfig)
    ensures Begun(a, a, [], answers, stack, s, c, 0, 0, Nil).holds
  {
  }

  lemma CallsSoFarNext(stack: seq<ConfigObserver>, s: Settings, c: SSLConfig, n: nat, ran0: nat, ran: nat, err: Error)
    requires n > 0 ==> ran0 == |stack|
    requires ran <= |stack|
    ensures CallsSoFar(stack, s, c, n, ran0, Nil) + ConfigCalls(stack, ran, SSLPrefix(s, c, n + 1), err)
         == CallsSoFar(stack, s, c, n + 1, ran, err)
  {
  }

  lemma ReloadAccepts(stack: seq<ConfigObserver>, seen: Settings)
    requires ReloadServers in stack && ReloadsAreSound(ConfigCalls(stack, |stack|, seen, Nil), seen)
    ensures !Clashes(seen)
  {
    var i :| 0 <= i < |stack| && stack[i] == ReloadServers;
    assert ConfigCalls(stack, |stack|, seen, Nil)[|stack| - 1 - i] == ConfigCall(ReloadServers, seen, true);
  }

  lemma BegunNext(a: Moment, b: Moment, d: Moment, calls: seq<Call>, answers: nat -> Answer, stack: seq<ConfigObserver>,
                  s: Settings, c: SSLConfig, n: nat, ran0: nat, ran: nat, err: Error)
    requires Begun(a, b, calls, answers, stack, s, c, n, ran0, Nil).holds && n < 4
    requires Stopped(err, ran, |stack|) && (err == Nil ==> Settled(d.world, SSLPrefix(s, c, n + 1), stack))
    requires ConfigsRun(b, d, answers, stack, ran, SSLPrefix(s, c, n + 1), err).holds
    ensures Begun(a, d, calls + ConfigCalls(stack, ran, SSLPrefix(s, c, n + 1), err), answers, stack,
                  s, c, n + 1, ran, err).holds
  {
    CallsSoFarNext(stack, s, c, n, ran0, ran, err);
    RecordedConcat(a.world.memory, a.world.file, calls, ConfigCalls(stack, ran, SSLPrefix(s, c, n + 1), err),
                   b.world.memory, b.world.file, d.world.memory, d.world.file);
    SSLPromiseNext(SightOf(a.world), SightOf(b.world), SightOf(d.world), s, c, n,
                   GoodFrom(answers, a.asked), GoodFrom(answers, b.asked), err);
    if err == Nil && ReloadServers in stack {
      ReloadAccepts(stack, SSLPrefix(s, c, n + 1));
    }
  }

  /** The setter numbered `n + 1`, in a request that began at `a` after these steps and calls. */
  method ChangeNext(state: State, change: SSLChange, ghost a: Moment, ghost log: seq<Event>, ghost before: seq<Call>,
                    ghost s: Settings, ghost c: SSLConfig, ghost n: nat, ghost ran0: nat, ghost calls: seq<Call>)
    returns (err: Error, ghost ran: nat, ghost now: seq<Call>)
    requires state.Valid() && Assigns(log, state.process.log, {s.gatewayPort})
    requires n < 4 && WithSSL(SSLPrefix(s, c, n), change) == SSLPrefix(s, c, n + 1)
    requires state.Fields() == SSLPrefix(s, c, n) && state.calls == before + calls
    requires Begun(a, state.process.Mark(), calls, state.process.answers, state.onGatewayConfigChange,
                   s, c, n, ran0, Nil).holds
    modifies state.process, state`sslEnabled, state`sslPort, state`sslDomain, state`sslCertType, state`calls
    ensures state.Valid() && Assigns(log, state.process.log, {s.gatewayPort})
    ensures state.Fields() == SSLPrefix(s, c, n + 1) && state.calls == before + now
    ensures Begun(a, state.process.Mark(), now, state.process.answers, state.onGatewayConfigChange,
                  s, c, n + 1, ran, err).holds
  {
    ghost var logged, here, b := state.process.log, {s.gatewayPort}, state.process.Mark();
    err, ran := ChangeSSL(state, change);
    ghost var more := ConfigCalls(state.onGatewayConfigChange, ran, SSLPrefix(s, c, n + 1), err);
    now := calls + more;
    Regrouped(before, calls, more);
    AssignsJoin(log, logged, state.process.log, here, here, here);
    BegunNext(a, b, state.process.Mark(), calls, state.process.answers, state.onGatewayConfigChange,
              s, c, n, ran0, ran, err);
  }

  /** The first two setters. */
  method RunFirstSetters(state: State, enabled: bool, port: string, ghost c: SSLConfig)
    returns (err: Error, ghost stored: nat, ghost ran: nat, ghost since: seq<Call>)
    requires state.Valid() && c.enabled == enabled && c.port == port
    modifies state.process, state`sslEnabled, state`sslPort, state`sslDomain, state`sslCertType, state`calls
    ensures state.Valid() && Assigns(old(state.process.log), state.process.log, {state.gatewayPort})
    ensures 1 <= stored <= 2 && (err == Nil ==> stored == 2) && state.calls == old(state.calls) + since
    ensures state.Fields() == SSLPrefix(old(state.Fields()), c, stored)
    ensures Begun(old(state.process.Mark()), state.process.Mark(), since, state.process.answers,
                  state.onGatewayConfigChange, old(state.Fields()), c, stored, ran, err).holds
  {
    ghost var a, log, calls, s := state.process.Mark(), state.process.log, state.calls, state.Fields();
    since := [];
    BegunNone(a, state.process.answers, state.onGatewayConfigChange, s, c);
    err, ran, since := ChangeNext(state, Enable(enabled), a, log, calls, s, c, 0, 0, since);
    stored := 1;
    if err == Nil {
      err, ran, since := ChangeNext(state, MoveTo(port), a, log, calls, s, c, 1, ran, since);
      stored := 2;
    }
  }

  /** The last two. */
  method RunLastSetters(state: State, domain: string, certType: string, ghost a: Moment, ghost log: seq<Event>,
                        ghost before: seq<Call>, ghost s: Settings, ghost c: SSLConfig, ghost ran0: nat,
                        ghost calls: seq<Call>)
    returns (err: Error, ghost stored: nat, ghost ran: nat, ghost since: seq<Call>)
    requires state.Valid() && Assigns(log, state.process.log, {s.gatewayPort})
    requires c.domain == domain && c.certType == certType
    requires state.Fields() == SSLPrefix(s, c, 2) && state.calls == before + calls
    requires Begun(a, state.process.Mark(), calls, state.process.answers, state.onGatewayConfigChange,
                   s, c, 2, ran0, Nil).holds
    modifies state.process, state`sslEnabled, state`sslPort, state`sslDomain, state`sslCertType, state`calls
    ensures state.Valid() && Assigns(log, state.process.log, {s.gatewayPort})
    ensures 3 <= stored <= 4 && (err == Nil ==> stored == 4)
    ensures state.Fields() == SSLPrefix(s, c, stored) && state.calls == before + since
    ensures Begun(a, state.process.Mark(), since, state.process.answers, state.onGatewayConfigChange,
                  s, c, stored, ran, err).holds
  {
    err, ran, since := ChangeNext(state, Rename(domain), a, log, before, s, c, 2, ran0, calls);
    stored := 3;
    if err == Nil {
      err, ran, since := ChangeNext(state, Certify(certType), a, log, before, s, c, 3, ran, since);
      stored := 4;
    }
  }

  /** All four, stopping at the first failure. */
  method RunSetters(state: State, enabled: bool, port: string, domain: string, certType: string)
    returns (err: Error, ghost stored: nat, ghost ran: nat, ghost since: seq<Call>)
    requires state.Valid()
    modifies state.process, state`sslEnabled, state`sslPort, state`sslDomain, state`sslCertType, state`calls
    ensures state.Valid() && Assigns(old(state.process.log), state.process.log, {state.gatewayPort})
    ensures 1 <= stored <= 4 && (err == Nil ==> stored == 4) && state.calls == old(state.calls) + since
    ensures state.Fields() == SSLPrefix(old(state.Fields()), SSLConfig(enabled, port, domain, certType), stored)
    ensures Begun(old(state.process.Mark()), state.process.Mark(), since, state.process.answers,
                  state.onGatewayConfigChange, old(state.Fields()), SSLConfig(enabled, port, domain, certType),
                  stored, ran, err).holds
    ensures ReloadServers in state.onGatewayConfigChange && enabled && port == state.gatewayPort && Canonical(port)
            ==> stored <= 2
  {
    ghost var a, log, calls := state.process.Mark(), state.process.log, state.calls;
    ghost var s, c := state.Fields(), SSLConfig(enabled, port, domain, certType);
    err, stored, ran, since := RunFirstSetters(state, enabled, port, c);
    if err == Failed { return; }
    err, stored, ran, since := RunLastSetters(state, domain, certType, a, log, calls, s, c, ran, since);
  }

  /**
   Stores four fields, notifying after each. Success settles everything on all five fields; a failure
   leaves the fields up to the failing one new and the rest old. It fails exactly if an observer does,
   and that one's call, on the fields stored by then, is the last. Where no listener is in the way and
   the answers are good, it succeeds.
   */
  method SetSSLConfig(state: State, enabled: bool, port: string, domain: string, certType: string)
    returns (err: Error, ghost stored: nat, ghost ran: nat)
    requires state.Valid()
    modifies state.process, state`sslEnabled, state`sslPort, state`sslDomain, state`sslCertType, state`calls
    ensures state.Valid()
    ensures Assigns(old(state.process.log), state.process.log, {state.gatewayPort})
    ensures 1 <= stored <= 4 && (err == Nil ==> stored == 4) && Stopped(err, ran, |state.onGatewayConfigChange|)
    ensures state.Fields() == SSLPrefix(old(state.Fields()), SSLConfig(enabled, port, domain, certType), stored)
    ensures state.calls == old(state.calls)
      + CallsSoFar(state.onGatewayConfigChange, old(state.Fields()), SSLConfig(enabled, port, domain, certType),
                   stored, ran, err)
    ensures err == Nil <==> forall c | c in state.calls[|old(state.calls)|..] :: c.ok
    ensures err == Failed ==> |state.calls| > |old(state.calls)|
                              && var last := state.calls[|state.calls| - 1];
                                 last.ConfigCall? && !last.ok && last.seen == state.Fields()
    ensures state.History(old(state.process.memory), old(state.process.file), old(state.calls))
    ensures err == Nil ==> Settled(state.process.Now(), state.Fields(), state.onGatewayConfigChange)
    ensures GoodFrom(state.process.answers, old(state.process.asked))
            && SSLPossible(SightOf(old(state.process.Now())), old(state.Fields()),
                           SSLConfig(enabled, port, domain, certType))
            ==> err == Nil
    ensures ReloadServers in state.onGatewayConfigChange && enabled && port == state.gatewayPort && Canonical(port)
            ==> err == Failed && stored <= 2
  {
    ghost var before, s, c := state.calls, state.Fields(), SSLConfig(enabled, port, domain, certType);
    ghost var since;
    err, stored, ran, since := RunSetters(state, enabled, port, domain, certType);
    assert state.calls[|before|..] == since;
    CallsSoFarOk(state.onGatewayConfigChange, s, c, stored, ran, err);
  }

  /** The request's calls all succeeded exactly if it did; a failing call is the last. */
  lemma CallsSoFarOk(stack: seq<ConfigObserver>, s: Settings, c: SSLConfig, n: nat, ran: nat, err: Error)
    requires n > 0 && Stopped(err, ran, |stack|)
    ensures var calls := CallsSoFar(stack, s, c, n, ran, err);
            && (err == Nil <==> forall call | call in calls :: call.ok)
            && (err == Failed ==> calls != [] && var last := calls[|calls| - 1];
                                                 last.ConfigCall? && !last.ok && last.seen == SSLPrefix(s, c, n))
  {
    var first, last := SSLCalls(stack, s, c, n - 1), ConfigCalls(stack, ran, SSLPrefix(s, c, n), err);
    SSLCallsOk(stack, s, c, n - 1);
    ConfigCallsOk(stack, ran, SSLPrefix(s, c, n), err);
    JoinedOk(first, last);
  }

  lemma JoinedOk(a: seq<Call>, b: seq<Call>)
    ensures (forall c | c in a + b :: c.ok) <==> (forall c | c in a :: c.ok) && forall c | c in b :: c.ok
    ensures b != [] ==> (a + b)[|a + b| - 1] == b[|b| - 1]
  {
    forall c | c in a || c in b ensures c in a + b {
    }
  }

  // ----- The port switch takes effect one notification late -----

  /** On a canonical port, the server asked for is bound to exactly that port, listens and serves. */
  lemma ConvergedServes(w: World, s: Settings, role: Role)
    requires Inv(w) && w.net.starting.Idle? && RoleConverged(w, s, role)
    requires Wanted(s, role) && Canonical(PortOf(s, role))
    ensures var c := Current(w, role);
            c.Some? && c.value.bound == PortOf(s, role) && Serves(w.net, role, c.value.id)
            && w.net.live[c.value.id] == c.value
  {
    assert CurrentOk(w, role);
  }

  /**
   What a successful `SetSSLConfig` means with `main`'s observers registered: the HTTP server is on
   the stored port, the HTTPS server on its port or absent, and the file holds all five fields.
   */
  lemma SettledMeans(w: World, s: Settings, stack: seq<ConfigObserver>)
    requires Inv(w) && w.net.starting.Idle? && Settled(w, s, stack)
    requires SaveConfig in stack && ReloadServers in stack
    requires Canonical(s.gatewayPort) && (Wanted(s, Https) ==> Canonical(s.sslPort))
    ensures w.file == Some(s)
    ensures w.http.Some? && w.http.value.bound == s.gatewayPort && Serves(w.net, Http, w.http.value.id)
    ensures s.sslEnabled && s.sslPort != "" ==>
              w.https.Some? && w.https.value.bound == s.sslPort && Serves(w.net, Https, w.https.value.id)
    ensures !(s.sslEnabled && s.sslPort != "") ==> w.https == None
  {
    ConvergedServes(w, s, Http);
    if Wanted(s, Https) {
      ConvergedServes(w, s, Https);
    }
  }

  /**
   After a successful `SetGatewayPort` the servers and the file follow the old settings, so the
   switch has taken effect exactly when it changed nothing.
   */
  lemma SwitchTakesEffectExactly(w: World, previous: Settings, port: string)
    requires Inv(w) && w.net.starting.Idle? && (port == "" || Canonical(port))
    requires previous.gatewayPort == "" || Canonical(previous.gatewayPort)
    requires w.settings == previous.(gatewayPort := port)
    requires Settled(w, previous, [SaveConfig, ReloadServers])
    ensures Converged(w, w.settings) <==> port == previous.gatewayPort
    ensures w.file == Some(w.settings) <==> port == previous.gatewayPort
  {
    assert ReloadServers in [SaveConfig, ReloadServers] && SaveConfig in [SaveConfig, ReloadServers];
    if Converged(w, w.settings) {
      assert RoleConverged(w, w.settings, Http) && RoleConverged(w, previous, Http);
      if port != "" {
        ConvergedServes(w, w.settings, Http);
      }
      if previous.gatewayPort != "" {
        ConvergedServes(w, previous, Http);
      }
    }
  }

  /** The steps a successful switch takes while a server is up: two writes, then the new port is stored. */
  lemma SwitchFrom80(s: Settings) returns (events: seq<Event>)
    requires s.gatewayPort == "80"
    ensures Legal(Fresh(s), events)
    ensures Run(Fresh(s), events) == ServingWorld(s).(settings := s.(gatewayPort := "8080"))
  {
    var up := ServerComesUp(s);
    var w0, w1, moved := Fresh(s), ServingWorld(s), s.(gatewayPort := "8080");
    StepTo(w0, up, w1, Remember(moved), w1.(memory := moved));
    StepTo(w0, up + [Remember(moved)], w1.(memory := moved), Write, w1.(memory := moved, file := Some(moved)));
    StepTo(w0, up + [Remember(moved)] + [Write], w1.(memory := moved, file := Some(moved)),
           Remember(s), w1.(file := Some(moved)));
    StepTo(w0, up + [Remember(moved)] + [Write] + [Remember(s)], w1.(file := Some(moved)), Write, w1);
    StepTo(w0, up + [Remember(moved)] + [Write] + [Remember(s)] + [Write], w1, Assign(moved), w1.(settings := moved));
    events := up + [Remember(moved)] + [Write] + [Remember(s)] + [Write] + [Assign(moved)];
  }

  /** For instance from port 80 to port 8080: a run from the start leaves the server and the file on 80. */
  lemma SwitchFrom80IsLate()
    ensures exists s: Settings, events ::
              && s.gatewayPort == "80" && Legal(Fresh(s), events)
              && var w := Run(Fresh(s), events);
                 && w.net.starting.Idle? && w.settings == s.(gatewayPort := "8080")
                 && Settled(w, s, [SaveConfig, ReloadServers])
                 && !Converged(w, w.settings) && w.file == Some(s)
  {
    var s := Settings("80", false, "443", "nimoos.local", "auto");
    var events := SwitchFrom80(s);
    var w := Run(Fresh(s), events);
    assert !On(w.http.value, "8080");
    assert Converged(w, s) && !Converged(w, w.settings) by {
      assert Wanted(w.settings, Http) && Current(w, Http) == w.http;
    }
  }

  /**
   A switch followed by any successful SSL setter puts everything on the new port. Every config
   observer of the first request saw the old settings, every one of the second the new.
   */
  method SwitchThenNotify(state: State, port: string, change: SSLChange)
    returns (switched: Error, notified: Error, ghost between: nat)
    requires state.Valid()
    modifies state.process, state`gatewayPort, state`sslEnabled, state`sslPort, state`sslDomain,
             state`sslCertType, state`calls
    ensures state.Valid() && |old(state.calls)| <= between <= |state.calls|
    ensures forall c | c in state.calls[|old(state.calls)|..between] && c.ConfigCall? :: c.seen == old(state.Fields())
    ensures forall c | c in state.calls[between..] :: c.ConfigCall? && c.seen == state.Fields()
    ensures switched == Nil && notified == Nil ==>
              && state.Fields() == WithSSL(old(state.Fields()).(gatewayPort := port), change)
              && Settled(state.process.Now(), state.Fields(), state.onGatewayConfigChange)
  {
    ghost var ranPort, ranConfig, ran;
    ghost var before := state.calls;
    switched, ranPort, ranConfig := state.SetGatewayPort(port);
    between := |state.calls|;
    ghost var since := state.calls[|before|..];
    assert forall c | c in since && c.ConfigCall? :: c.seen == old(state.Fields());
    state.process.Yield();
    notified, ran := ChangeSSL(state, change);
    assert state.calls[|before|..between] == since;
    assert state.calls[between..] == ConfigCalls(state.onGatewayConfigChange, ran, state.Fields(), notified);
  }

  // ----- A port change that fails -----

  /** How many of the observers called by a failing port change succeeded: all but the last. */
  function GoodPorts(ranPort: nat, ranConfig: nat): int {
    if ranConfig == 0 then ranPort - 1 else ranPort
  }

  function GoodConfigs(ranConfig: nat): nat {
    if ranConfig == 0 then 0 else ranConfig - 1
  }

  /** The observer that failed is one that saves. */
  predicate SaveFailed(ports: seq<PortObserver>, configs: seq<ConfigObserver>, ranPort: nat, ranConfig: nat)
    requires Stopped(if ranConfig == 0 then Failed else Nil, ranPort, |ports|) && ranConfig <= |configs|
  {
    if ranConfig == 0 then ports[|ports| - ranPort] == SavePort else configs[|configs| - ranConfig] == SaveConfig
  }

  lemma SavesOfPorts(stack: seq<PortObserver>, ran: nat, good: nat, port: string, err: Error)
    requires good <= ran <= |stack| && good == (if err == Nil then ran else if ran == 0 then 0 else ran - 1)
    ensures var calls := PortCalls(stack, ran, port, err);
            && (PortCall(SavePort, port, true) in calls <==> SavePort in stack[|stack| - good..])
            && forall c | c in calls && Saves(c) && !c.ok :: ran > good && stack[|stack| - ran] == SavePort
  {
    var calls := PortCalls(stack, ran, port, err);
    if i :| |stack| - good <= i < |stack| && stack[i] == SavePort {
      assert calls[|stack| - 1 - i] == PortCall(SavePort, port, true);
    }
  }

  lemma SavesOfConfigs(stack: seq<ConfigObserver>, ran: nat, good: nat, seen: Settings, err: Error)
    requires good <= ran <= |stack| && good == (if err == Nil then ran else if ran == 0 then 0 else ran - 1)
    ensures var calls := ConfigCalls(stack, ran, seen, err);
            && (ConfigCall(SaveConfig, seen, true) in calls <==> SaveConfig in stack[|stack| - good..])
            && forall c | c in calls && Saves(c) && !c.ok :: ran > good && stack[|stack| - ran] == SaveConfig
  {
    var calls := ConfigCalls(stack, ran, seen, err);
    if i :| |stack| - good <= i < |stack| && stack[i] == SaveConfig {
      assert calls[|stack| - 1 - i] == ConfigCall(SaveConfig, seen, true);
    }
  }

  /** Which saves succeeded, and whether one failed, read off the stacks. */
  lemma SavesOfFailedSwitch(ports: seq<PortObserver>, configs: seq<ConfigObserver>, ranPort: nat, ranConfig: nat,
                            port: string, fields: Settings)
    requires Stopped(if ranConfig == 0 then Failed else Nil, ranPort, |ports|) && ranConfig <= |configs|
    ensures var calls := SwitchCalls(ports, configs, ranPort, ranConfig, port, fields, Failed);
            && (PortCall(SavePort, port, true) in calls <==>
                SavePort in ports[|ports| - GoodPorts(ranPort, ranConfig)..])
            && (ConfigCall(SaveConfig, fields, true) in calls <==>
                SaveConfig in configs[|configs| - GoodConfigs(ranConfig)..])
            && ((exists c :: c in calls && Saves(c) && !c.ok) ==> SaveFailed(ports, configs, ranPort, ranConfig))
  {
    var first := if ranConfig == 0 then Failed else Nil;
    SavesOfPorts(ports, ranPort, GoodPorts(ranPort, ranConfig), port, first);
    SavesOfConfigs(configs, ranConfig, GoodConfigs(ranConfig), fields, Failed);
    var a, b := PortCalls(ports, ranPort, port, first), ConfigCalls(configs, ranConfig, fields, Failed);
    assert PortCall(SavePort, port, true) !in b && ConfigCall(SaveConfig, fields, true) !in a;
  }

  /**
   After a failed port change the file holds the rejected port exactly when a port observer had
   written it, no config observer has written the stored one over it, and the file is not lost,
   which takes a save that fails.
   */
  lemma RejectedPortExactly(ports: seq<PortObserver>, configs: seq<ConfigObserver>, ranPort: nat, ranConfig: nat,
                            port: string, fields: Settings, m: Settings, start: Option<Settings>,
                            file: Option<Settings>)
    requires Stopped(if ranConfig == 0 then Failed else Nil, ranPort, |ports|) && ranConfig <= |configs|
    requires FileAfterSwitch(m, start, SwitchCalls(ports, configs, ranPort, ranConfig, port, fields, Failed),
                             port, fields, file)
    requires port != fields.gatewayPort && (start.Some? ==> start.value.gatewayPort != port)
    ensures file.Some? && file.value.gatewayPort == port <==>
              && SavePort in ports[|ports| - GoodPorts(ranPort, ranConfig)..]
              && SaveConfig !in configs[|configs| - GoodConfigs(ranConfig)..]
              && file.Some?
    ensures SavePort in ports[|ports| - GoodPorts(ranPort, ranConfig)..] && file == None
            ==> SaveFailed(ports, configs, ranPort, ranConfig)
  {
    SavesOfFailedSwitch(ports, configs, ranPort, ranConfig, port, fields);
  }

  /** With `main`'s observers the reload comes first: past it only through its success. */
  lemma ReloadIsFirst(ranPort: nat, port: string, seen: Settings, err: Error)
    requires ranPort <= 1
    ensures ConfigCall(ReloadServers, seen, true)
            in SwitchCalls([SavePort], [SaveConfig, ReloadServers], ranPort, 2, port, seen, err)
  {
    var configs := ConfigCalls([SaveConfig, ReloadServers], 2, seen, err);
    assert configs[0] == ConfigCall(ReloadServers, seen, true);
  }

  /** What a port change with `main`'s observers comes to. */
  lemma SwitchMeans(a: Moment, b: Moment, answers: nat -> Answer, ranPort: nat, ranConfig: nat,
                    port: string, s: Settings, err: Error)
    requires SwitchRun(a, b, answers, [SavePort], [SaveConfig, ReloadServers], ranPort, ranConfig, port, s, err).holds
    ensures ranPort <= 1 && ranConfig <= 2
    ensures var calls := SwitchCalls([SavePort], [SaveConfig, ReloadServers], ranPort, ranConfig, port, s, err);
            err == Failed ==> (ranConfig > 0 <==> PortCall(SavePort, port, true) in calls)
    ensures Clashes(s) ==> err == Failed && ranConfig <= 1
    ensures err == Failed && ranConfig == 1 ==> b.world.file.Some?
    ensures Clashes(s) && ranConfig == 1 ==> b.world.file == Some(a.world.memory.(gatewayPort := port))
    ensures var file, start := b.world.file, a.world.file;
            err == Failed && port != s.gatewayPort && (start.Some? ==> start.value.gatewayPort != port)
            ==> (file.Some? && file.value.gatewayPort == port <==> ranConfig > 0 && file.Some?)
  {
    var ports, configs := [SavePort], [SaveConfig, ReloadServers];
    if ranConfig == 2 {
      ReloadIsFirst(ranPort, port, s, err);
    }
    if err == Failed {
      SavesOfFailedSwitch(ports, configs, ranPort, ranConfig, port, s);
      assert ports[0] == SavePort && (ranConfig > 0 ==> SavePort in ports[|ports| - GoodPorts(ranPort, ranConfig)..]);
      if port != s.gatewayPort && (a.world.file.Some? ==> a.world.file.value.gatewayPort != port) {
        RejectedPortExactly(ports, configs, ranPort, ranConfig, port, s, a.world.memory, a.world.file, b.world.file);
      }
    }
  }

  /**
   With `main`'s observers: when a port change fails, the file holds the rejected port exactly when
   the failure came after the port observer, in a reload or in the write that would have undone it,
   unless that last write lost the file.
   */
  method SwitchPort(state: State, port: string) returns (err: Error, ghost ranConfig: nat)
    requires state.Valid()
    requires state.onGatewayPortChange == [SavePort] && state.onGatewayConfigChange == [SaveConfig, ReloadServers]
    modifies state.process, state`gatewayPort, state`calls
    ensures state.Valid()
    ensures err == Failed ==> state.Fields() == old(state.Fields()) && ranConfig <= 2
    ensures err == Failed && ranConfig == 1 ==> state.process.file.Some?
    ensures old(state.calls) <= state.calls
    ensures err == Failed ==> (ranConfig > 0 <==> PortCall(SavePort, port, true) in state.calls[|old(state.calls)|..])
    ensures Clashes(old(state.Fields())) ==>
              && err == Failed && ranConfig <= 1
              && (ranConfig == 1 ==> state.process.file == Some(old(state.process.memory).(gatewayPort := port)))
    ensures var file, start := state.process.file, old(state.process.file);
            err == Failed && port != state.gatewayPort && (start.Some? ==> start.value.gatewayPort != port)
            ==> (file.Some? && file.value.gatewayPort == port <==> ranConfig > 0 && file.Some?)
  {
    ghost var a, s, ranPort := state.process.Mark(), state.Fields(), 0;
    ghost var before := state.calls;
    err, ranPort, ranConfig := state.SetGatewayPort(port);
    ghost var since := SwitchCalls([SavePort], [SaveConfig, ReloadServers], ranPort, ranConfig, port, s, err);
    assert state.calls == before + since && state.calls[|before|..] == since;
    SwitchMeans(a, state.process.Mark(), state.process.answers, ranPort, ranConfig, port, s, err);
  }

  /** A request for HTTPS on the gateway's own port. */
  method AskForClash(state: State, domain: string, certType: string) returns (ssl: Error, ghost stored: nat)
    requires state.Valid() && Canonical(state.gatewayPort) && ReloadServers in state.onGatewayConfigChange
    modifies state.process, state`sslEnabled, state`sslPort, state`sslDomain, state`sslCertType, state`calls
    ensures state.Valid() && ssl == Failed && 1 <= stored <= 2
    ensures state.sslEnabled && (stored == 2 ==> state.sslPort == state.gatewayPort)
  {
    ghost var ran;
    ssl, stored, ran := SetSSLConfig(state, true, state.gatewayPort, domain, certType);
    state.process.Yield();
  }

  /**
   Putting HTTPS on the gateway's own port locks the gateway there. The request fails but is stored,
   and then every change of port fails: its reload still runs on the stored settings. Unless writing
   the config fails, the file is left with the rejected port, for the next start to use.
   */
  method LockOut(state: State, domain: string, certType: string, port: string)
    returns (ssl: Error, switched: Error, ghost stored: nat, ghost ranConfig: nat)
    requires state.Valid() && Canonical(state.gatewayPort)
    requires state.onGatewayPortChange == [SavePort] && state.onGatewayConfigChange == [SaveConfig, ReloadServers]
    modifies state.process, state`gatewayPort, state`sslEnabled, state`sslPort, state`sslDomain,
             state`sslCertType, state`calls
    ensures state.Valid() && ssl == Failed && 1 <= stored <= 2
    ensures stored == 2 ==>
              && Clashes(state.Fields()) && switched == Failed && state.gatewayPort == old(state.gatewayPort)
              && ranConfig <= 1
              && (ranConfig == 1 ==> state.process.file.Some? && state.process.file.value.gatewayPort == port)
  {
    ssl, stored := AskForClash(state, domain, certType);
    switched, ranConfig := SwitchPort(state, port);
  }

  // ----- Which settings can be met -----

  /** A role's server comes up on a free port. */
  lemma BringUp(w0: World, events: seq<Event>, w: World, role: Role) returns (events': seq<Event>)
    requires Inv(w0) && Legal(w0, events) && Run(w0, events) == w && w.net.starting.Idle?
    requires Wanted(w.settings, role) && Canonical(PortOf(w.settings, role))
    requires Current(w, role).None? && Free(w.net, PortOf(w.settings, role))
    ensures Legal(w0, events')
    ensures var server := Server(w.net.next, role, PortOf(w.settings, role), PortOf(w.settings, role));
            var now := Run(w0, events');
            now == SetCurrent(w, role, Some(server)).(net := now.net)
            && now.net.live == w.net.live[server.id := server] && now.net.starting.Idle?
  {
    var port := PortOf(w.settings, role);
    var server := Server(w.net.next, role, port, port);
    var w1 := Apply(w, Bind(server));
    StepTo(w0, events, w, Bind(server), w1);
    var w2 := Apply(w1, ProbeOk);
    StepTo(w0, events + [Bind(server)], w1, ProbeOk, w2);
    StepTo(w0, events + [Bind(server)] + [ProbeOk], w2, Swap, Apply(w2, Swap));
    events' := events + [Bind(server)] + [ProbeOk] + [Swap];
  }

  /** From the start some run meets the settings exactly when they do not put both servers on one port. */
  lemma ReloadableExactly(s: Settings)
    requires s.gatewayPort == "" || Canonical(s.gatewayPort)
    requires s.sslPort == "" || Canonical(s.sslPort)
    ensures (exists events :: Legal(Fresh(s), events)
                              && Run(Fresh(s), events).net.starting.Idle? && Converged(Run(Fresh(s), events), s))
            <==> !Clashes(s)
  {
    var w0 := Fresh(s);
    if Clashes(s) {
      ClashIsNotReloadable(s);
      forall events | Legal(w0, events) && Run(w0, events).net.starting.Idle? ensures !Converged(Run(w0, events), s) {
        RunsKeepInv(w0, events);
      }
    } else {
      StepTo(w0, [], w0, Assign(s), w0.(settings := s));
      var events := [] + [Assign(s)];
      if Wanted(s, Http) {
        events := BringUp(w0, events, Run(w0, events), Http);
      }
      if Wanted(s, Https) {
        events := BringUp(w0, events, Run(w0, events), Https);
      }
      assert Converged(Run(w0, events), s);
    }
  }

  // ----- Runs of requests -----

  datatype Request =
    | ChangePort(port: string)
    | ChangeSSL(config: SSLConfig)

  /** The settings after one request, by its result and how many of its fields were stored. */
  function Outcome(s: Settings, r: Request, err: Error, stored: nat): Settings {
    match r
    case ChangePort(port) => if err == Nil then s.(gatewayPort := port) else s
    case ChangeSSL(config) => SSLPrefix(s, config, stored)
  }

  function Replay(s: Settings, requests: seq<Request>, results: seq<Error>, stored: seq<nat>): Settings
    requires |requests| == |results| == |stored|
  {
    if requests == [] then s
    else
      var n := |requests| - 1;
      Outcome(Replay(s, requests[..n], results[..n], stored[..n]), requests[n], results[n], stored[n])
  }

  lemma ReplaySnoc(s: Settings, requests: seq<Request>, results: seq<Error>, stored: seq<nat>,
                   r: Request, e: Error, k: nat)
    requires |requests| == |results| == |stored|
    ensures Replay(s, requests + [r], results + [e], stored + [k])
         == Outcome(Replay(s, requests, results, stored), r, e, k)
  {
    assert (requests + [r])[..|requests|] == requests && (results + [e])[..|results|] == results;
    assert (stored + [k])[..|stored|] == stored;
  }

  /** Replayed requests leave the port of the last change that succeeded. */
  lemma {:induction false} ReplayedPort(s: Settings, requests: seq<Request>, results: seq<Error>, stored: seq<nat>)
    requires |requests| == |results| == |stored|
    ensures Replay(s, requests, results, stored).gatewayPort == LastAccepted(s.gatewayPort, requests, results)
  {
    if requests != [] {
      var n := |requests| - 1;
      ReplayedPort(s, requests[..n], results[..n], stored[..n]);
    }
  }

  /** The port of the last change that succeeded. */
  function LastAccepted(port: string, requests: seq<Request>, results: seq<Error>): string
    requires |requests| == |results|
  {
    if requests == [] then port
    else
      var n := |requests| - 1;
      if requests[n].ChangePort? && results[n] == Nil then requests[n].port
      else LastAccepted(port, requests[..n], results[..n])
  }

  /** The ports the requests ask for. */
  function Ports(requests: seq<Request>): set<string> {
    set r | r in requests && r.ChangePort? :: r.port
  }

  lemma AssignsJoin(a: seq<Event>, b: seq<Event>, c: seq<Event>,
                    some: set<string>, more: set<string>, ports: set<string>)
    requires Assigns(a, b, some) && Assigns(b, c, more) && some <= ports && more <= ports
    ensures Assigns(a, c, ports)
  {
  }

  /** One request; old servers may stop before it. It fails exactly if an observer does. */
  method ServeRequest(state: State, r: Request) returns (err: Error, ghost stored: nat)
    requires state.Valid()
    modifies state.process, state`gatewayPort, state`sslEnabled, state`sslPort, state`sslDomain,
             state`sslCertType, state`calls
    ensures state.Valid() && state.Fields() == Outcome(old(state.Fields()), r, err, stored)
    ensures 1 <= stored <= 4 && (err == Nil ==> stored == 4)
    ensures state.History(old(state.process.memory), old(state.process.file), old(state.calls))
    ensures err == Nil <==> forall c | c in state.calls[|old(state.calls)|..] :: c.ok
    ensures Assigns(old(state.process.log), state.process.log, {old(state.gatewayPort)} + Ports([r]))
  {
    ghost var start, ports := state.process.log, {state.gatewayPort} + Ports([r]);
    assert r in [r];
    state.process.Yield();
    AssignsNothing(start, state.process.log, ports);
    ghost var logged, here := state.process.log, state.gatewayPort;
    match r {
      case ChangePort(p) =>
        ghost var ranPort, ranConfig;
        err, ranPort, ranConfig := state.SetGatewayPort(p);
        stored := 4;
        AssignsJoin(start, logged, state.process.log, ports, {p}, ports);
      case ChangeSSL(c) =>
        ghost var ran;
        err, stored, ran := SetSSLConfig(state, c.enabled, c.port, c.domain, c.certType);
        AssignsJoin(start, logged, state.process.log, ports, {here}, ports);
    }
  }

  /** Serves requests in turn, whatever fails on the way. */
  method ServeRequests(state: State, requests: seq<Request>) returns (results: seq<Error>, ghost stored: seq<nat>)
    requires state.Valid()
    modifies state.process, state`gatewayPort, state`sslEnabled, state`sslPort, state`sslDomain,
             state`sslCertType, state`calls
    ensures state.Valid() && |results| == |requests| == |stored|
    ensures state.Fields() == Replay(old(state.Fields()), requests, results, stored)
    ensures forall i | 0 <= i < |requests| :: 1 <= stored[i] <= 4 && (results[i] == Nil ==> stored[i] == 4)
    ensures state.gatewayPort == LastAccepted(old(state.gatewayPort), requests, results)
    ensures Assigns(old(state.process.log), state.process.log, {old(state.gatewayPort)} + Ports(requests))
    ensures state.History(old(state.process.memory), old(state.process.file), old(state.calls))
  {
    results, stored := [], [];
    ghost var start, ports := state.process.log, {state.gatewayPort} + Ports(requests);
    ghost var m, f, calls, fields := state.process.memory, state.process.file, state.calls, state.Fields();
    assert calls[|calls|..] == [];
    for i := 0 to |requests|
      invariant state.Valid() && |results| == |stored| == i
      invariant state.Fields() == Replay(fields, requests[..i], results, stored) && state.gatewayPort in ports
      invariant forall j | 0 <= j < i :: 1 <= stored[j] <= 4 && (results[j] == Nil ==> stored[j] == 4)
      invariant Assigns(start, state.process.log, ports)
      invariant state.History(m, f, calls)
    {
      var r := requests[i];
      ghost var logged, some := state.process.log, {state.gatewayPort} + Ports([r]);
      ghost var m1, f1, called := state.process.memory, state.process.file, state.calls;
      assert r in requests && some <= ports;
      ghost var k;
      var err;
      err, k := ServeRequest(state, r);
      AssignsJoin(start, logged, state.process.log, ports, some, ports);
      HistoryJoins(m, f, calls, called, state.calls, m1, f1, state.process.memory, state.process.file);
      assert requests[..i + 1] == requests[..i] + [r];
      ReplaySnoc(fields, requests[..i], results, stored, r, err, k);
      results, stored := results + [err], stored + [k];
    }
    assert requests[..|requests|] == requests;
    ReplayedPort(fields, requests, results, stored);
  }

  lemma {:induction false} AssignedPortsStay(w: World, events: seq<Event>, ports: set<string>)
    requires w.settings.gatewayPort in ports && Assigns([], events, ports)
    ensures Run(w, events).settings.gatewayPort in ports
  {
    if events != [] {
      AssignedPortsStay(w, events[..|events| - 1], ports);
    }
  }

  /**
   Zero downtime over whole runs of requests: from any state with a current HTTP server, while
   no empty port is asked for, every intermediate state has a live, probed HTTP server.
   */
  lemma RunsAreServed(w: World, events: seq<Event>, ports: set<string>, k: nat)
    requires Inv(w) && Legal(w, events) && w.http.Some? && k <= |events|
    requires w.settings.gatewayPort in ports && Assigns([], events, ports) && "" !in ports
    ensures Serving(Run(w, events[..k]), Http)
  {
    forall j | 0 <= j <= |events| ensures Wanted(Run(w, events[..j]).settings, Http) {
      AssignedPortsStay(w, events[..j], ports);
    }
    ZeroDowntime(w, events, Http, k);
  }

  /** The same over the log of a process: every state since `before` is served. */
  lemma LogIsServed(process: Process, before: World, logged: seq<Event>, ports: set<string>, k: nat)
    requires process.Valid() && Run(process.boot, logged) == before && before.http.Some?
    requires before.settings.gatewayPort in ports && "" !in ports
    requires Assigns(logged, process.log, ports) && |logged| <= k <= |process.log|
    ensures Serving(Run(process.boot, process.log[..k]), Http)
  {
    var since := process.log[|logged|..];
    assert process.log == logged + since;
    RunConcat(process.boot, logged, since);
    RunsKeepInv(process.boot, logged);
    RunsAreServed(before, since, ports, k - |logged|);
    assert process.log[..k] == logged + since[..k - |logged|];
    LegalPrefix(before, since, k - |logged|);
    RunConcat(process.boot, logged, since[..k - |logged|]);
  }

  /** Serving requests without downtime: no request asks for an empty port, a server is up. */
  method ServeWithoutDowntime(state: State, requests: seq<Request>) returns (results: seq<Error>)
    requires state.Valid() && state.process.gateway.Some? && state.gatewayPort != ""
    requires "" !in Ports(requests)
    modifies state.process, state
    ensures state.Valid() && old(state.process.log) <= state.process.log
    ensures forall k | |old(state.process.log)| <= k <= |state.process.log| ::
              Serving(Run(state.process.boot, state.process.log[..k]), Http)
  {
    ghost var before, logged := state.process.Now(), state.process.log;
    ghost var ports := {state.gatewayPort} + Ports(requests);
    ghost var stored;
    results, stored := ServeRequests(state, requests);
    forall k | |logged| <= k <= |state.process.log|
      ensures Serving(Run(state.process.boot, state.process.log[..k]), Http)
    {
      LogIsServed(state.process, before, logged, ports, k);
    }
  }

  // ----- Startup -----

  /** Trying a port at startup: taken, released again, or not released. */
  datatype Check = Taken | Released | Kept

  const CANDIDATES := [
    "80", "81", "82", "83", "84", "85", "86", "87", "88", "89",
    "8080", "8081", "8082", "8083", "8084", "8085", "8086", "8087", "8088", "8089"]

  /** The first candidate that could be bound and released; the last one when there is none. */
  ghost predicate IsPick(checks: seq<Check>, port: string)
    requires |checks| == |CANDIDATES|
  {
    exists at: nat | at < |CANDIDATES| ::
      && port == CANDIDATES[at]
      && (forall i | 0 <= i < at :: !checks[i].Released?)
      && (checks[at].Released? || at == |CANDIDATES| - 1)
  }

  /** The candidates are the numbers 80 to 89 and 8080 to 8089, as they are printed. */
  lemma CandidatesAreNumbers(i: nat)
    requires i < 10
    ensures |CANDIDATES| == 20
    ensures SpellsNumber(CANDIDATES[i], 80 + i) && SpellsNumber(CANDIDATES[10 + i], 8080 + i)
  {
    TwoDigits(CANDIDATES[i], 80, i);
    FourDigits(CANDIDATES[10 + i], i);
  }

  lemma TwoDigits(s: string, tens: nat, d: nat)
    requires |s| == 2 && s[0] == '8' && tens == 80 && d < 10 && s[1] as nat == '0' as nat + d
    ensures SpellsNumber(s, tens + d)
  {
    assert s[..1][..0] == "" && Decimal("") == 0 && Decimal(s[..1]) == 8;
  }

  lemma FourDigits(s: string, d: nat)
    requires |s| == 4 && s[..3] == "808" && d < 10 && s[3] as nat == '0' as nat + d
    ensures SpellsNumber(s, 8080 + d)
  {
    var t := s[..3];
    assert t[0] == '8' && t[1] == '0' && t[2] == '8' && s[0] == t[0] && s[1] == t[1] && s[2] == t[2];
    assert t[..2][..1][..0] == "" && Decimal("") == 0 && Decimal(t[..2][..1]) == 8;
    assert Decimal(t[..2]) == 80 && Decimal(t) == 808;
  }

  lemma PickIsCanonical(checks: seq<Check>, port: string)
    requires |checks| == |CANDIDATES| && IsPick(checks, port)
    ensures Canonical(port)
  {
    var at: nat :| at < |CANDIDATES| && port == CANDIDATES[at];
    assert |port| in {2, 4} && port[0] == '8';
    assert forall i | 0 <= i < |port| :: '0' <= port[i] <= '9';
  }

  method PickPort(checks: seq<Check>) returns (port: string)
    requires |checks| == |CANDIDATES|
    ensures IsPick(checks, port) && port != ""
  {
    port := "";
    ghost var at := 0;
    for i := 0 to |CANDIDATES|
      invariant forall j | 0 <= j < i :: !checks[j].Released?
      invariant i > 0 ==> at == i - 1 && port == CANDIDATES[at]
    {
      port, at := CANDIDATES[i], i;
      if checks[i].Released? { break; }
    }
    assert port == CANDIDATES[at];
  }

  /**
   The gateway's start hook: pick a port if none is configured, then load and watch. A configured
   port leaves fields and file alone; a picked one is stored, but the file still has none. Before
   anything listens, on sensible settings and with good answers, it succeeds.
   */
  method StartGateway(state: State, checks: seq<Check>) returns (err: Error)
    requires state.Valid() && |checks| == |CANDIDATES|
    modifies state.process, state`gatewayPort, state`onGatewayConfigChange, state`calls
    ensures state.Valid() && state.Fields() == old(state.Fields()).(gatewayPort := state.gatewayPort)
    ensures err == Nil ==> Converged(state.process.Now(), state.Fields()) && state.process.gateway.Some?
    ensures err == Nil ==> state.onGatewayConfigChange == old(state.onGatewayConfigChange) + [ReloadServers]
    ensures old(state.gatewayPort) != "" ==>
              && state.gatewayPort == old(state.gatewayPort)
              && state.process.file == old(state.process.file) && state.process.memory == old(state.process.memory)
    ensures old(state.gatewayPort) == "" && state.gatewayPort != "" ==> IsPick(checks, state.gatewayPort)
    ensures err == Nil ==> state.gatewayPort != ""
    ensures old(state.gatewayPort) == "" && state.gatewayPort != "" && SaveConfig in old(state.onGatewayConfigChange)
            ==> state.process.file == Some(old(state.Fields()))
    ensures old(state.gatewayPort) == "" ==>
              || state.process.file in {None, old(state.process.file), Some(old(state.Fields()))}
              || exists p ::
                   IsPick(checks, p) && state.process.file == Some(old(state.process.memory).(gatewayPort := p))
    ensures old(Held(state.process.net)) == {} && ReloadServers !in old(state.onGatewayConfigChange)
            && GoodFrom(state.process.answers, old(state.process.asked)) && Sensible(state.Fields())
            ==> err == Nil
  {
    if state.gatewayPort == "" {
      var port := PickPort(checks);
      if port == "" { return Failed; }
      ghost var ranPort, ranConfig;
      err, ranPort, ranConfig := state.SetGatewayPort(port);
      if err == Failed { return; }
    }
    state.OnGatewayConfigChange(ReloadServers);
    state.process.Yield();
    assert old(Held(state.process.net)) == {} && ReloadServers !in old(state.onGatewayConfigChange)
           ==> Held(state.process.net) == {};
    err := state.process.ReloadGateways(state);
    assert err == Nil ==> Current(state.process.Now(), Http).Some?;
  }

  lemma NoConfigCalls(m: Settings, start: Option<Settings>, ran: nat, seen: Settings, err: Error,
                      memory: Settings, file: Option<Settings>)
    requires ran == 0 && Recorded(m, start, ConfigCalls([], ran, seen, err), memory, file)
    ensures memory == m && file == start
  {
    assert ConfigCalls([], ran, seen, err) == [];
  }

  /** Before any observer is registered a setter only stores. */
  method LoadSSL(state: State, change: SSLChange)
    requires state.Valid() && state.onGatewayConfigChange == []
    modifies state.process, state`sslEnabled, state`sslPort, state`sslDomain, state`sslCertType, state`calls
    ensures state.Valid() && state.Fields() == WithSSL(old(state.Fields()), change)
    ensures state.process.memory == old(state.process.memory) && state.process.file == old(state.process.file)
    ensures Held(state.process.net) <= old(Held(state.process.net))
  {
    ghost var m, f := state.process.memory, state.process.file;
    ghost var ran;
    var err;
    err, ran := ChangeSSL(state, change);
    NoConfigCalls(m, f, ran, state.Fields(), err, state.process.memory, state.process.file);
  }

  method LoadPort(state: State, port: string)
    requires state.Valid() && state.onGatewayPortChange == [] && state.onGatewayConfigChange == []
    modifies state.process, state`gatewayPort, state`calls
    ensures state.Valid() && state.Fields() == old(state.Fields()).(gatewayPort := port)
    ensures state.process.memory == old(state.process.memory) && state.process.file == old(state.process.file)
    ensures Held(state.process.net) <= old(Held(state.process.net))
  {
    ghost var ranPort, ranConfig;
    var err;
    err, ranPort, ranConfig := state.SetGatewayPort(port);
    assert SwitchCalls([], [], ranPort, ranConfig, port, old(state.Fields()), err) == [];
  }

  method LoadAllSSL(state: State, config: Settings)
    requires state.Valid() && state.onGatewayConfigChange == []
    modifies state.process, state`sslEnabled, state`sslPort, state`sslDomain, state`sslCertType, state`calls
    ensures state.Valid() && state.Fields() == config.(gatewayPort := state.gatewayPort)
    ensures state.process.memory == old(state.process.memory) && state.process.file == old(state.process.file)
    ensures Held(state.process.net) <= old(Held(state.process.net))
  {
    LoadSSL(state, Enable(config.sslEnabled));
    LoadSSL(state, MoveTo(config.sslPort));
    LoadSSL(state, Rename(config.sslDomain));
    LoadSSL(state, Certify(config.sslCertType));
  }

  /** Loads the config file's values into a new state and registers the observers that save it. */
  method LoadState(config: Settings, answers: nat -> Answer) returns (state: State)
    ensures fresh(state) && fresh(state.process) && state.Valid() && state.Fields() == config
    ensures state.process.file == Some(config) && state.process.memory == config
    ensures state.process.answers == answers && Held(state.process.net) == {}
    ensures state.onGatewayPortChange == [SavePort] && state.onGatewayConfigChange == [SaveConfig]
  {
    var process := new Process(config, answers);
    state := new State(process);
    LoadPort(state, config.gatewayPort);
    LoadAllSSL(state, config);
    state.OnGatewayPortChange(SavePort);
    state.OnGatewayConfigChange(SaveConfig);
  }

  /**
   Starting the process. When it comes up, the servers are as the fields say, and the file holds
   the fields exactly when it named a port: a picked port is forgotten by the next start. When it
   does not, a picked port that was not stored may have been left in the file. It does come up if
   the settings are sensible, those with a picked port included, and the answers are good.
   */
  method Boot(config: Settings, checks: seq<Check>, answers: nat -> Answer) returns (state: State, err: Error)
    requires |checks| == |CANDIDATES|
    ensures fresh(state) && fresh(state.process) && state.Valid()
    ensures err == Nil ==> Converged(state.process.Now(), state.Fields()) && state.process.gateway.Some?
    ensures err == Nil ==> state.onGatewayPortChange == [SavePort]
                           && state.onGatewayConfigChange == [SaveConfig, ReloadServers]
    ensures err == Nil ==> state.Fields() == config.(gatewayPort := state.gatewayPort)
    ensures err == Nil ==> if config.gatewayPort != "" then state.gatewayPort == config.gatewayPort
                           else IsPick(checks, state.gatewayPort)
    ensures err == Nil ==> state.process.file == Some(config)
    ensures err == Nil ==> (state.process.file == Some(state.Fields()) <==> config.gatewayPort != "")
    ensures err == Failed ==>
              || state.process.file == Some(config)
              || (config.gatewayPort == "" && state.process.file == None)
              || (config.gatewayPort == "" == state.gatewayPort
                  && exists p :: IsPick(checks, p) && state.process.file == Some(config.(gatewayPort := p)))
    ensures GoodFrom(answers, 0) && Sensible(config)
            && !(state.gatewayPort != "" && config.sslEnabled && config.sslPort == state.gatewayPort)
            ==> err == Nil
  {
    state := LoadState(config, answers);
    err := StartGateway(state, checks);
    if config.gatewayPort == "" && state.gatewayPort != "" {
      PickIsCanonical(checks, state.gatewayPort);
    }
  }
}
