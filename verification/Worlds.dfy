/**
 The hot-reload protocol as a transition system: the gateway's settings, its config
 file, the two current servers, and the listeners the process holds. A reload's steps
 are serial; the goroutines that stop old servers may fire between any two of them.
 */
module Worlds {
  import opened Wrappers
  import opened Text

  datatype Settings = Settings(
    gatewayPort: string, sslEnabled: bool, sslPort: string, sslDomain: string, sslCertType: string)

  datatype Role = Http | Https

  /** A server and its listener: the port asked for and the port actually bound. */
  datatype Server = Server(id: nat, role: Role, asked: string, bound: string)

  /** The server a reload is bringing up, and how far it has got. */
  datatype Starting =
    | Idle
    | Listening(server: Server)
    | Ready(server: Server)
    | Handed(server: Server)

  /**
   The listeners the process holds, by server number; those that answered their probe;
   those handed to a goroutine that will stop them; those abandoned after a failed probe.
   */
  datatype Net = Net(
    live: map<nat, Server>, probed: set<nat>, pending: set<nat>, orphans: set<nat>,
    starting: Starting, next: nat)

  /** `memory` is the config object; `file` is what it last wrote, None once a write was lost. */
  datatype World = World(
    settings: Settings, memory: Settings, file: Option<Settings>,
    http: Option<Server>, https: Option<Server>, net: Net)

  datatype Event =
    | Bind(server: Server)
    | ProbeOk
    | ProbeFail
    | HandOver
    | Swap
    | Retire(role: Role)
    | Stop(id: nat)
    | Assign(settings: Settings)
    | Remember(memory: Settings)
    | Write
    | LoseFile

  function Current(w: World, role: Role): Option<Server> {
    match role
    case Http => w.http
    case Https => w.https
  }

  function SetCurrent(w: World, role: Role, s: Option<Server>): World {
    match role
    case Http => w.(http := s)
    case Https => w.(https := s)
  }

  /** The settings call for a server of this role. */
  predicate Wanted(s: Settings, role: Role) {
    match role
    case Http => s.gatewayPort != ""
    case Https => s.sslEnabled && s.sslPort != ""
  }

  function PortOf(s: Settings, role: Role): string {
    match role
    case Http => s.gatewayPort
    case Https => s.sslPort
  }

  /** A port number written the way a listener prints it: 1 to 65535, no leading zero. */
  predicate Canonical(port: string) {
    && 1 <= |port| <= 5 && port[0] != '0' && Digits(port)
    && (|port| == 5 ==> Decimal(port) <= 65535)
  }

  lemma {:induction false} DecimalLimits(s: string, k: nat, limit: nat)
    requires Digits(s) && s != "" && s[0] != '0'
    requires (k == 1 && limit == 10) || (k == 2 && limit == 100) || (k == 3 && limit == 1000)
             || (k == 4 && limit == 10000) || (k == 5 && limit == 100000)
    ensures |s| <= k <==> Decimal(s) < limit
    decreases k
  {
    assert Decimal(s[..0]) == 0;
    if |s| > 1 {
      DecimalBounds(s);
      if k > 1 {
        DecimalLimits(s[..|s| - 1], k - 1, limit / 10);
      }
    } else {
      assert Decimal(s) < 10;
    }
  }

  /** The canonical ports are exactly the numbers 1 to 65535 as they are printed. */
  lemma CanonicalExactly(port: string)
    ensures Canonical(port) <==> exists n: nat :: 1 <= n <= 65535 && SpellsNumber(port, n)
  {
    if port != "" && Digits(port) {
      if port[0] != '0' {
        DecimalLimits(port, 5, 100000);
        DecimalLimits(port, 4, 10000);
        DecimalBounds(port);
        assert SpellsNumber(port, Decimal(port));
      } else if |port| == 1 {
        assert Decimal(port[..0]) == 0;
      }
    }
  }


  // ----- Steps -----

  /** HTTP and HTTPS share one port space: a held port, even one about to close, cannot be bound. */
  predicate Free(net: Net, port: string) {
    forall id | id in net.live :: net.live[id].bound != port
  }

  predicate Enabled(w: World, e: Event) {
    match e
    case Bind(s) =>
      w.net.starting.Idle? && s.id == w.net.next && Free(w.net, s.bound)
      && (Canonical(s.asked) ==> s.bound == s.asked)
    case ProbeOk => w.net.starting.Listening?
    case ProbeFail => w.net.starting.Listening?
    case HandOver => w.net.starting.Ready? && Current(w, w.net.starting.server.role).Some?
    case Swap =>
      || w.net.starting.Handed?
      || (w.net.starting.Ready? && Current(w, w.net.starting.server.role).None?)
    case Retire(role) =>
      w.net.starting.Idle? && Current(w, role).Some? && !Wanted(w.settings, role)
    case Stop(id) => id in w.net.pending
    case Assign(_) => w.net.starting.Idle?
    case _ => true
  }

  function Old(w: World, role: Role): set<nat> {
    match Current(w, role)
    case Some(s) => {s.id}
    case None => {}
  }

  function ApplyNet(w: World, e: Event): Net {
    var net := w.net;
    match e
    case Bind(s) => net.(live := net.live[s.id := s], starting := Listening(s), next := net.next + 1)
    case ProbeOk =>
      if net.starting.Idle? then net
      else net.(probed := net.probed + {net.starting.server.id}, starting := Ready(net.starting.server))
    case ProbeFail =>
      if net.starting.Idle? then net
      else net.(orphans := net.orphans + {net.starting.server.id}, starting := Idle)
    case HandOver =>
      if net.starting.Idle? then net
      else net.(pending := net.pending + Old(w, net.starting.server.role), starting := Handed(net.starting.server))
    case Swap => net.(starting := Idle)
    case Retire(role) => net.(pending := net.pending + Old(w, role))
    case Stop(id) => net.(live := net.live - {id}, pending := net.pending - {id})
    case _ => net
  }

  function Apply(w: World, e: Event): World {
    var after := w.(net := ApplyNet(w, e));
    match e
    case Swap =>
      if w.net.starting.Idle? then after
      else SetCurrent(after, w.net.starting.server.role, Some(w.net.starting.server))
    case Retire(role) => SetCurrent(after, role, None)
    case Assign(s) => after.(settings := s)
    case Remember(m) => after.(memory := m)
    case Write => after.(file := Some(w.memory))
    case LoseFile => after.(file := None)
    case _ => after
  }

  ghost function Run(w: World, events: seq<Event>): World {
    if events == [] then w else Apply(Run(w, events[..|events| - 1]), events[|events| - 1])
  }

  ghost predicate Legal(w: World, events: seq<Event>) {
    events == []
    || (Legal(w, events[..|events| - 1]) && Enabled(Run(w, events[..|events| - 1]), events[|events| - 1]))
  }

  lemma RunSnoc(w: World, events: seq<Event>, e: Event)
    ensures Run(w, events + [e]) == Apply(Run(w, events), e)
    ensures Legal(w, events + [e]) <==> Legal(w, events) && Enabled(Run(w, events), e)
  {
    assert (events + [e])[..|events|] == events;
  }

  /** The world before anything has happened: nothing stored, nothing listening. */
  function Fresh(memory: Settings): World {
    World(Settings("", false, "", "", ""), memory, Some(memory), None, None, Net(map[], {}, {}, {}, Idle, 0))
  }

  // ----- The invariant -----

  predicate IsStarting(net: Net, id: nat) {
    !net.starting.Idle? && net.starting.server.id == id
  }

  predicate IsCurrent(w: World, id: nat) {
    (w.http.Some? && w.http.value.id == id) || (w.https.Some? && w.https.value.id == id)
  }

  predicate HandingOver(net: Net, role: Role) {
    net.starting.Handed? && net.starting.server.role == role
  }

  ghost predicate WellBound(s: Server) {
    Canonical(s.asked) ==> s.bound == s.asked
  }

  /**
   A current server has answered its probe, holds its listener and is not about to stop,
   except between handing it over and replacing it, when its probed successor already listens.
   */
  ghost predicate CurrentOk(w: World, role: Role) {
    var c := Current(w, role);
    c.Some? ==>
      && c.value.role == role && c.value.id < w.net.next && WellBound(c.value)
      && c.value.id in w.net.probed && c.value.id !in w.net.orphans
      && !IsStarting(w.net, c.value.id)
      && (!HandingOver(w.net, role) ==>
            c.value.id in w.net.live && w.net.live[c.value.id] == c.value && c.value.id !in w.net.pending)
  }

  ghost predicate StartingOk(w: World) {
    var st := w.net.starting;
    !st.Idle? ==>
      && st.server.id in w.net.live && w.net.live[st.server.id] == st.server && WellBound(st.server)
      && st.server.id !in w.net.pending && st.server.id !in w.net.orphans
      && (!st.Listening? <==> st.server.id in w.net.probed)
      && (st.Handed? ==>
            var c := Current(w, st.server.role);
            c.Some? && (c.value.id in w.net.live ==> c.value.id in w.net.pending))
  }

  /** No two listeners share a port. */
  ghost predicate Exclusive(net: Net) {
    forall i, j | i in net.live && j in net.live && i != j :: net.live[i].bound != net.live[j].bound
  }

  ghost predicate Numbered(net: Net) {
    (forall id | id in net.live :: id < net.next && net.live[id].id == id)
    && forall id | id in net.probed :: id < net.next
  }

  ghost predicate NetOk(net: Net) {
    && Numbered(net) && Exclusive(net)
    && net.pending <= net.live.Keys && net.orphans <= net.live.Keys && net.pending !! net.orphans
    && net.probed !! net.orphans && net.pending <= net.probed
  }

  /** Every listener has an owner: no listener leaks without being one of these. */
  ghost predicate Owned(w: World) {
    forall id | id in w.net.live ::
      IsCurrent(w, id) || IsStarting(w.net, id) || id in w.net.pending || id in w.net.orphans
  }

  ghost predicate Inv(w: World) {
    NetOk(w.net) && CurrentOk(w, Http) && CurrentOk(w, Https) && StartingOk(w) && Owned(w)
  }

  lemma StepKeepsExclusive(w: World, e: Event)
    requires Exclusive(w.net) && Enabled(w, e)
    ensures Exclusive(Apply(w, e).net)
  {
  }

  lemma StepKeepsNumbered(w: World, e: Event)
    requires Inv(w) && Enabled(w, e)
    ensures Numbered(Apply(w, e).net)
  {
  }

  lemma StepKeepsNet(w: World, e: Event)
    requires Inv(w) && Enabled(w, e)
    ensures NetOk(Apply(w, e).net)
  {
    StepKeepsExclusive(w, e);
    StepKeepsNumbered(w, e);
  }

  lemma StepKeepsCurrent(w: World, e: Event, role: Role)
    requires Inv(w) && Enabled(w, e)
    ensures CurrentOk(Apply(w, e), role)
  {
    if w.http.Some? && w.https.Some? {
      assert w.http.value.role != w.https.value.role;
    }
  }

  lemma StepKeepsStarting(w: World, e: Event)
    requires Inv(w) && Enabled(w, e)
    ensures StartingOk(Apply(w, e))
  {
  }

  lemma StepKeepsOwned(w: World, e: Event)
    requires Inv(w) && Enabled(w, e)
    ensures Owned(Apply(w, e))
  {
  }

  lemma StepKeepsInv(w: World, e: Event)
    requires Inv(w) && Enabled(w, e)
    ensures Inv(Apply(w, e))
  {
    StepKeepsNet(w, e);
    StepKeepsCurrent(w, e, Http);
    StepKeepsCurrent(w, e, Https);
    StepKeepsStarting(w, e);
    StepKeepsOwned(w, e);
  }

  /** In every reachable state, under every interleaving with the stopping goroutines. */
  lemma {:induction false} RunsKeepInv(w: World, events: seq<Event>)
    requires Inv(w) && Legal(w, events)
    ensures Inv(Run(w, events))
  {
    if events != [] {
      RunsKeepInv(w, events[..|events| - 1]);
      StepKeepsInv(Run(w, events[..|events| - 1]), events[|events| - 1]);
    }
  }

  // ----- What the invariant is for -----

  /** In no reachable state do two listeners of the process share a port. */
  lemma PortsAreExclusive(w: World, events: seq<Event>, i: nat, j: nat)
    requires Inv(w) && Legal(w, events)
    requires var net := Run(w, events).net; i in net.live && j in net.live && i != j
    ensures var net := Run(w, events).net; net.live[i].bound != net.live[j].bound
  {
    RunsKeepInv(w, events);
  }

  /**
   In every reachable state each listener is current, starting, about to stop or orphaned, and only
   one of these, except that a server being handed over is current and about to stop at once.
   */
  lemma ListenersHaveOneOwner(w: World, events: seq<Event>, id: nat)
    requires Inv(w) && Legal(w, events) && id in Run(w, events).net.live
    ensures var now := Run(w, events); var net := now.net;
            && (IsCurrent(now, id) || IsStarting(net, id) || id in net.pending || id in net.orphans)
            && (IsCurrent(now, id) ==> !IsStarting(net, id) && id !in net.orphans)
            && (IsCurrent(now, id) && id in net.pending ==> net.starting.Handed?)
            && (IsStarting(net, id) ==> id !in net.pending && id !in net.orphans)
            && (id in net.pending ==> id !in net.orphans)
  {
    RunsKeepInv(w, events);
  }

  /** A server that listens, has answered its probe, and nobody is about to stop. */
  ghost predicate Serves(net: Net, role: Role, id: nat) {
    && id in net.live && net.live[id].role == role
    && id in net.probed && id !in net.pending && id !in net.orphans
  }

  ghost predicate Serving(w: World, role: Role) {
    exists id :: Serves(w.net, role, id)
  }

  /**
   In every reachable state a current server has answered its probe, and it serves exactly when it
   is not being handed over; while it is, its successor serves.
   */
  lemma CurrentServersAreSound(w: World, events: seq<Event>, role: Role)
    requires Inv(w) && Legal(w, events) && Current(Run(w, events), role).Some?
    ensures var now := Run(w, events); var id := Current(now, role).value.id;
            && id in now.net.probed
            && (Serves(now.net, role, id) <==> !HandingOver(now.net, role))
            && (HandingOver(now.net, role) ==> Serves(now.net, role, now.net.starting.server.id))
  {
    RunsKeepInv(w, events);
    assert CurrentOk(Run(w, events), role) && StartingOk(Run(w, events));
  }

  /** Having a current server means being served, even between handing over and swapping. */
  lemma CurrentMeansServing(w: World, role: Role)
    requires Inv(w) && Current(w, role).Some?
    ensures Serving(w, role)
  {
    if HandingOver(w.net, role) {
      assert Serves(w.net, role, w.net.starting.server.id);
    } else {
      assert Serves(w.net, role, Current(w, role).value.id);
    }
  }

  /** Every state of a run, from its first to its last. */
  ghost predicate WantedThroughout(w: World, events: seq<Event>, role: Role) {
    forall k | 0 <= k <= |events| :: Wanted(Run(w, events[..k]).settings, role)
  }

  /** A wanted server is only ever replaced by another. */
  lemma StepKeepsServer(w: World, e: Event, role: Role)
    requires Enabled(w, e) && Current(w, role).Some? && Wanted(w.settings, role)
    ensures Current(Apply(w, e), role).Some?
  {
  }

  lemma {:induction false} CurrentStays(w: World, events: seq<Event>, role: Role)
    requires Inv(w) && Legal(w, events) && Current(w, role).Some?
    requires WantedThroughout(w, events, role)
    ensures Current(Run(w, events), role).Some?
  {
    if events != [] {
      var n := |events| - 1;
      assert forall k | 0 <= k <= n :: events[..n][..k] == events[..k];
      CurrentStays(w, events[..n], role);
      assert Wanted(Run(w, events[..n]).settings, role);
      StepKeepsServer(Run(w, events[..n]), events[n], role);
    }
  }

  lemma {:induction false} LegalPrefix(w: World, events: seq<Event>, k: nat)
    requires Legal(w, events) && k <= |events|
    ensures Legal(w, events[..k])
  {
    if k < |events| {
      assert events[..|events| - 1][..k] == events[..k];
      LegalPrefix(w, events[..|events| - 1], k);
    } else {
      assert events[..k] == events;
    }
  }

  /**
   Zero downtime: once a role has a server, and while the settings keep asking for it, every
   intermediate state is served, whatever binds and probes fail and whenever old servers stop.
   */
  lemma ZeroDowntime(w: World, events: seq<Event>, role: Role, k: nat)
    requires Inv(w) && Legal(w, events) && Current(w, role).Some?
    requires WantedThroughout(w, events, role) && k <= |events|
    ensures Serving(Run(w, events[..k]), role)
  {
    LegalPrefix(w, events, k);
    assert forall j | 0 <= j <= k :: events[..k][..j] == events[..j];
    CurrentStays(w, events[..k], role);
    RunsKeepInv(w, events[..k]);
    CurrentMeansServing(Run(w, events[..k]), role);
  }

  lemma StepKeepsOrphan(w: World, e: Event, id: nat)
    requires Inv(w) && Enabled(w, e) && id in w.net.orphans
    ensures var net := Apply(w, e).net;
            id in net.orphans && id in net.live && net.live[id] == w.net.live[id]
  {
  }

  /** A listener abandoned after a failed probe keeps its port for the rest of the run. */
  lemma {:induction false} OrphansKeepTheirPort(w: World, events: seq<Event>, id: nat)
    requires Inv(w) && Legal(w, events) && id in w.net.orphans
    ensures var net := Run(w, events).net;
            id in net.orphans && id in net.live && net.live[id] == w.net.live[id]
    ensures !Free(Run(w, events).net, w.net.live[id].bound)
  {
    if events != [] {
      RunsKeepInv(w, events[..|events| - 1]);
      OrphansKeepTheirPort(w, events[..|events| - 1], id);
      StepKeepsOrphan(Run(w, events[..|events| - 1]), events[|events| - 1], id);
    }
  }

  /** So once a probe on a port has failed, no later reload can bring a server up on that port. */
  lemma OrphanedPortIsLost(w: World, events: seq<Event>, id: nat, server: Server)
    requires Inv(w) && Legal(w, events) && id in w.net.orphans
    requires server.asked == w.net.live[id].bound && Canonical(server.asked)
    ensures !Enabled(Run(w, events), Bind(server))
  {
    OrphansKeepTheirPort(w, events, id);
  }

  predicate NoFailedProbe(events: seq<Event>) {
    forall i | 0 <= i < |events| :: !events[i].ProbeFail?
  }

  lemma StepLeaks(w: World, e: Event)
    requires Inv(w) && Enabled(w, e)
    ensures Apply(w, e).net.orphans == {} <==> w.net.orphans == {} && !e.ProbeFail?
  {
    if w.net.orphans != {} {
      var id :| id in w.net.orphans;
      StepKeepsOrphan(w, e, id);
    } else if e.ProbeFail? {
      assert w.net.starting.server.id in Apply(w, e).net.orphans;
    }
  }

  /** Listeners leak exactly when some probe of the run has failed. */
  lemma {:induction false} LeaksExactly(w: World, events: seq<Event>)
    requires Inv(w) && Legal(w, events) && w.net.orphans == {}
    ensures Run(w, events).net.orphans == {} <==> NoFailedProbe(events)
  {
    if events != [] {
      var n := |events| - 1;
      LeaksExactly(w, events[..n]);
      RunsKeepInv(w, events[..n]);
      StepLeaks(Run(w, events[..n]), events[n]);
      assert NoFailedProbe(events) <==> NoFailedProbe(events[..n]) && !events[n].ProbeFail?;
    }
  }

  // ----- Runs that happen -----

  lemma StepTo(w: World, events: seq<Event>, before: World, e: Event, after: World)
    requires Legal(w, events) && Run(w, events) == before
    requires Enabled(before, e) && after == Apply(before, e)
    ensures Legal(w, events + [e]) && Run(w, events + [e]) == after
  {
    RunSnoc(w, events, e);
  }

  /** The first server on this port, with the settings stored and in the file. */
  function ServingWorld(s: Settings): World {
    var server := Server(0, Http, s.gatewayPort, s.gatewayPort);
    World(s, s, Some(s), Some(server), None, Net(map[0 := server], {0}, {}, {}, Idle, 1))
  }

  lemma ServerComesUp(s: Settings) returns (events: seq<Event>)
    ensures Legal(Fresh(s), events) && Run(Fresh(s), events) == ServingWorld(s)
  {
    var w0, server := Fresh(s), Server(0, Http, s.gatewayPort, s.gatewayPort);
    var w1 := w0.(settings := s);
    StepTo(w0, [], w0, Assign(s), w1);
    var w2 := w1.(net := Net(map[0 := server], {}, {}, {}, Listening(server), 1));
    StepTo(w0, [] + [Assign(s)], w1, Bind(server), w2);
    var w3 := w2.(net := Net(map[0 := server], {0}, {}, {}, Ready(server), 1));
    StepTo(w0, [] + [Assign(s)] + [Bind(server)], w2, ProbeOk, w3);
    StepTo(w0, [] + [Assign(s)] + [Bind(server)] + [ProbeOk], w3, Swap, ServingWorld(s));
    events := [] + [Assign(s)] + [Bind(server)] + [ProbeOk] + [Swap];
  }

  /** The hand-over window is real: a run from the start in which the current server is about to stop. */
  lemma HandOverHappens()
    ensures exists s: Settings, events ::
              && Legal(Fresh(s), events)
              && var now := Run(Fresh(s), events);
                 now.http.Some? && now.http.value.id in now.net.pending && HandingOver(now.net, Http)
  {
    var s := Settings("80", false, "", "", "");
    var up := ServerComesUp(s);
    var w0, w1 := Fresh(s), ServingWorld(s);
    var next := Server(1, Http, "8080", "8080");
    var moved := s.(gatewayPort := "8080");
    var w2 := w1.(settings := moved);
    StepTo(w0, up, w1, Assign(moved), w2);
    var both := w1.net.live[1 := next];
    var w3 := w2.(net := Net(both, {0}, {}, {}, Listening(next), 2));
    StepTo(w0, up + [Assign(moved)], w2, Bind(next), w3);
    var w4 := w3.(net := Net(both, {0, 1}, {}, {}, Ready(next), 2));
    StepTo(w0, up + [Assign(moved)] + [Bind(next)], w3, ProbeOk, w4);
    var w5 := w4.(net := Net(both, {0, 1}, {0}, {}, Handed(next), 2));
    StepTo(w0, up + [Assign(moved)] + [Bind(next)] + [ProbeOk], w4, HandOver, w5);
    assert w5.http.value.id in w5.net.pending && HandingOver(w5.net, Http);
  }

  // ----- Settings during a run -----

  ghost predicate NoAssign(events: seq<Event>) {
    forall i | 0 <= i < |events| :: !events[i].Assign?
  }

  lemma {:induction false} NoAssignKeepsSettings(w: World, events: seq<Event>)
    requires NoAssign(events)
    ensures Run(w, events).settings == w.settings
  {
    if events != [] {
      NoAssignKeepsSettings(w, events[..|events| - 1]);
    }
  }

  lemma {:induction false} RunConcat(w: World, a: seq<Event>, b: seq<Event>)
    ensures Run(w, a + b) == Run(Run(w, a), b)
    ensures Legal(w, a + b) <==> Legal(w, a) && Legal(Run(w, a), b)
  {
    if b == [] {
      assert a + b == a;
    } else {
      var n := |b| - 1;
      assert a + b == (a + b[..n]) + [b[n]];
      RunSnoc(w, a + b[..n], b[n]);
      RunConcat(w, a, b[..n]);
    }
  }
}
