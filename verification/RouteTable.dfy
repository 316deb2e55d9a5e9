/**
 The route table: a target map and a reverse-proxy map kept in step, longest-prefix
 lookup in each, and the routes file that outlives the process.

 Whether a target parses as a URL is a fixed function of the target, and a proxy is
 identified by the target it was built from.
 */
module RouteTable {
  import opened Wrappers
  import opened Text
  import opened RoutesJson

  datatype Proxy = Proxy(target: string)

  type Proxies = map<string, Proxy>

  // ----- Longest-prefix lookup -----

  ghost predicate IsLongest(keys: set<string>, path: string, k: string) {
    k in keys && HasPrefix(path, k)
    && forall other | other in keys && HasPrefix(path, other) :: |other| <= |k|
  }

  /** Reference lookup: try the prefixes of the path themselves, longest first. */
  function LongestUpTo(keys: set<string>, path: string, n: nat): Option<string>
    requires n <= |path|
  {
    if path[..n] in keys then Some(path[..n])
    else if n == 0 then None
    else LongestUpTo(keys, path, n - 1)
  }

  function Longest(keys: set<string>, path: string): Option<string> {
    LongestUpTo(keys, path, |path|)
  }

  lemma {:induction false} LongestUpToFinds(keys: set<string>, path: string, n: nat)
    requires n <= |path|
    requires forall k | k in keys && HasPrefix(path, k) :: |k| <= n
    ensures var r := LongestUpTo(keys, path, n);
            if r.Some? then IsLongest(keys, path, r.value) else forall k | k in keys :: !HasPrefix(path, k)
  {
    if path[..n] in keys {
      assert HasPrefix(path, path[..n]);
    } else if n > 0 {
      forall k | k in keys && HasPrefix(path, k) ensures |k| <= n - 1 {
        assert k == path[..|k|];
      }
      LongestUpToFinds(keys, path, n - 1);
    } else {
      assert path[..0] == "";
      forall k | k in keys ensures !HasPrefix(path, k) {
        assert k != "";
      }
    }
  }

  /** The reference lookup finds the longest registered prefix, and only misses when there is none. */
  lemma LongestIsLongest(keys: set<string>, path: string, k: string)
    ensures Longest(keys, path) == Some(k) <==> IsLongest(keys, path, k)
    ensures Longest(keys, path) == None <==> forall other | other in keys :: !HasPrefix(path, other)
  {
    LongestUpToFinds(keys, path, |path|);
    var r := Longest(keys, path);
    if r.Some? && IsLongest(keys, path, k) {
      // Two prefixes of one path with the same length are the same key.
      assert |k| == |r.value| && k == path[..|k|] && r.value == path[..|k|];
    }
  }

  // ----- Sorting keys -----

  predicate LongestFirst(list: seq<string>) {
    forall i, j | 0 <= i < j < |list| :: |list[i]| >= |list[j]|
  }

  /** Ranging over a map visits its keys in an arbitrary order. */
  method CollectKeys<V>(m: map<string, V>) returns (list: seq<string>)
    ensures Enumerates(list, m.Keys)
  {
    list := [];
    var rest := m.Keys;
    while rest != {}
      invariant rest <= m.Keys && Enumerates(list, m.Keys - rest)
      decreases |rest|
    {
      var k :| k in rest;
      rest := rest - {k};
      list := list + [k];
    }
  }

  /** A key goes to any place where the order allows it. */
  method InsertLongestFirst(sorted: seq<string>, k: string) returns (r: seq<string>)
    requires LongestFirst(sorted)
    ensures multiset(r) == multiset(sorted) + multiset{k}
    ensures LongestFirst(r)
  {
    var at := |sorted|;
    while at > 0 && |sorted[at - 1]| <= |k|
      invariant 0 <= at <= |sorted|
      invariant forall j | at <= j < |sorted| :: |sorted[j]| <= |k|
    {
      var stay: bool := *;
      if stay && |sorted[at - 1]| == |k| { break; }
      at := at - 1;
    }
    InsertedElements(sorted, k, at);
    InsertedOrder(sorted, k, at);
    r := sorted[..at] + [k] + sorted[at..];
  }

  lemma InsertedElements(sorted: seq<string>, k: string, at: nat)
    requires at <= |sorted|
    ensures multiset(sorted[..at] + [k] + sorted[at..]) == multiset(sorted) + multiset{k}
  {
    assert sorted == sorted[..at] + sorted[at..];
  }

  lemma InsertedOrder(sorted: seq<string>, k: string, at: nat)
    requires LongestFirst(sorted) && at <= |sorted|
    requires at > 0 ==> |sorted[at - 1]| >= |k|
    requires forall j | at <= j < |sorted| :: |sorted[j]| <= |k|
    ensures LongestFirst(sorted[..at] + [k] + sorted[at..])
  {
    var r := sorted[..at] + [k] + sorted[at..];
    assert forall j | 0 <= j < at :: r[j] == sorted[j] && |r[j]| >= |k|;
    assert r[at] == k;
    assert forall j | at < j < |r| :: r[j] == sorted[j - 1];
  }

  /** An unstable sort by descending length. */
  method SortLongestFirst(list: seq<string>) returns (sorted: seq<string>)
    ensures multiset(sorted) == multiset(list)
    ensures LongestFirst(sorted)
  {
    sorted := [];
    for i := 0 to |list|
      invariant multiset(sorted) == multiset(list[..i])
      invariant LongestFirst(sorted)
    {
      assert list[..i + 1] == list[..i] + [list[i]];
      sorted := InsertLongestFirst(sorted, list[i]);
    }
    assert list[..|list|] == list;
  }

  lemma SameElements(list: seq<string>, sorted: seq<string>, keys: set<string>)
    requires Enumerates(list, keys) && multiset(sorted) == multiset(list)
    ensures forall k :: k in sorted <==> k in keys
  {
    forall k ensures k in sorted <==> k in keys {
      assert k in sorted <==> k in multiset(sorted);
      assert k in list <==> k in multiset(list);
    }
  }

  method GetSortedKeys<V>(m: map<string, V>) returns (keys: seq<string>)
    ensures forall k :: k in keys <==> k in m.Keys
    ensures LongestFirst(keys)
  {
    var list := CollectKeys(m);
    keys := SortLongestFirst(list);
    SameElements(list, keys, m.Keys);
  }

  /** Scanning keys longest first, the first match is the longest. */
  method FirstPrefix(list: seq<string>, path: string, ghost keys: set<string>) returns (r: Option<string>)
    requires forall k :: k in list <==> k in keys
    requires LongestFirst(list)
    ensures r == Longest(keys, path)
  {
    for i := 0 to |list|
      invariant forall j | 0 <= j < i :: !HasPrefix(path, list[j])
    {
      if HasPrefix(path, list[i]) {
        LongestIsLongest(keys, path, list[i]);
        return Some(list[i]);
      }
    }
    LongestIsLongest(keys, path, "");
    return None;
  }

  // ----- The service as a value -----

  datatype Service = Service(targets: Table, proxies: Proxies, file: Option<string>)

  /** How writing the routes file may end. */
  datatype Write = Written | Unopened | Cut(at: nat)

  function ProxiesOf(targets: Table, parses: string -> bool): Proxies {
    map k | k in targets && parses(targets[k]) :: Proxy(targets[k])
  }

  function Stored(file: Option<string>): Table {
    match file
    case None => map[]
    case Some(content) =>
      match Decode(content)
      case None => map[]
      case Some(table) => table
  }

  /** Starting up: the stored table, or an empty one when the file is missing or unreadable. */
  function Load(file: Option<string>, parses: string -> bool): Service {
    Service(Stored(file), ProxiesOf(Stored(file), parses), file)
  }

  function AfterWrite(file: Option<string>, content: string, write: Write): Option<string> {
    match write
    case Written => Some(content)
    case Unopened => file
    case Cut(at) => Some(if at <= |content| then content[..at] else content)
  }

  ghost predicate Created(before: Service, path: string, target: string, parses: string -> bool,
                          write: Write, err: Error, after: Service) {
    if !parses(target) then err == Failed && after == before
    else
      && err == (if write == Written then Nil else Failed)
      && after.targets == before.targets[path := target]
      && after.proxies == before.proxies[path := Proxy(target)]
      && exists order ::
           && Enumerates(order, after.targets.Keys)
           && after.file == AfterWrite(before.file, Encode(after.targets, order), write)
  }

  function LookupProxy(s: Service, path: string): Option<Proxy> {
    match Longest(s.proxies.Keys, path)
    case None => None
    case Some(k) => if k in s.proxies then Some(s.proxies[k]) else None
  }

  function LookupTarget(s: Service, path: string): string {
    match Longest(s.targets.Keys, path)
    case None => ""
    case Some(k) => if k in s.targets then s.targets[k] else ""
  }

  // ----- The service as the process holds it -----

  /** Ranges over the loaded targets; one that does not parse gets no proxy. */
  method BuildProxies(targets: Table, parses: string -> bool) returns (proxies: Proxies)
    ensures proxies == ProxiesOf(targets, parses)
  {
    proxies := map[];
    var rest := targets.Keys;
    while rest != {}
      invariant rest <= targets.Keys
      invariant proxies == map k | k in targets && k !in rest && parses(targets[k]) :: Proxy(targets[k])
      decreases |rest|
    {
      var path :| path in rest;
      rest := rest - {path};
      if parses(targets[path]) {
        proxies := proxies[path := Proxy(targets[path])];
      }
    }
  }

  /** The runtime directory's routes file; it survives a restart. */
  class Disk {
    var routes: Option<string>
  }

  class Management {
    var pathTargetMap: Table
    var pathReverseProxyMap: Proxies
    const disk: Disk
    const parses: string -> bool

    ghost function Now(): Service
      reads this, disk
    {
      Service(pathTargetMap, pathReverseProxyMap, disk.routes)
    }

    constructor (disk: Disk, parses: string -> bool)
      ensures this.disk == disk && this.parses == parses
      ensures Now() == Load(disk.routes, parses)
    {
      var proxies := BuildProxies(Stored(disk.routes), parses);
      this.disk := disk;
      this.parses := parses;
      pathTargetMap := Stored(disk.routes);
      pathReverseProxyMap := proxies;
    }

    /** The outcome of writing the file is the operating system's to choose. */
    method CreateRoute(path: string, target: string, write: Write) returns (err: Error)
      modifies this, disk
      ensures Created(old(Now()), path, target, parses, write, err, Now())
    {
      if !parses(target) {
        return Failed;
      }
      pathTargetMap := pathTargetMap[path := target];
      pathReverseProxyMap := pathReverseProxyMap[path := Proxy(target)];
      err := SavePathTargetMap(write);
    }

    method SavePathTargetMap(write: Write) returns (err: Error)
      modifies disk
      ensures err == if write == Written then Nil else Failed
      ensures exists order ::
                && Enumerates(order, pathTargetMap.Keys)
                && disk.routes == AfterWrite(old(disk.routes), Encode(pathTargetMap, order), write)
    {
      var order := CollectKeys(pathTargetMap);
      assert Enumerates(order, pathTargetMap.Keys);
      disk.routes := AfterWrite(disk.routes, Encode(pathTargetMap, order), write);
      err := if write == Written then Nil else Failed;
    }

    method GetProxy(path: string) returns (proxy: Option<Proxy>)
      ensures proxy == LookupProxy(Now(), path)
    {
      var keys := GetSortedKeys(pathReverseProxyMap);
      LongestIsLongest(pathReverseProxyMap.Keys, path, "");
      var k := FirstPrefix(keys, path, pathReverseProxyMap.Keys);
      if k.None? {
        return None;
      }
      LongestIsLongest(pathReverseProxyMap.Keys, path, k.value);
      return Some(pathReverseProxyMap[k.value]);
    }

    method ResolveTarget(versionPath: string) returns (target: string)
      ensures target == LookupTarget(Now(), versionPath)
    {
      var prefixes := CollectKeys(pathTargetMap);
      var sorted := SortLongestFirst(prefixes);
      SameElements(prefixes, sorted, pathTargetMap.Keys);
      var k := FirstPrefix(sorted, versionPath, pathTargetMap.Keys);
      if k.None? {
        return "";
      }
      LongestIsLongest(pathTargetMap.Keys, versionPath, k.value);
      return pathTargetMap[k.value];
    }
  }

  // ----- Runs: registrations and restarts -----

  datatype Event = Create(path: string, target: string, write: Write, err: Error) | Restart

  ghost predicate Step(before: Service, e: Event, after: Service, parses: string -> bool) {
    match e
    case Create(path, target, write, err) => Created(before, path, target, parses, write, err, after)
    case Restart => after == Load(before.file, parses)
  }

  /** The states a service passes through. */
  ghost predicate IsRun(states: seq<Service>, events: seq<Event>, parses: string -> bool) {
    |states| == |events| + 1
    && forall i | 0 <= i < |events| :: Step(states[i], events[i], states[i + 1], parses)
  }

  /** The proxies are exactly those of the parseable targets, each built from its current target. */
  ghost predicate InStep(s: Service, parses: string -> bool) {
    && (forall k :: k in s.proxies <==> k in s.targets && parses(s.targets[k]))
    && (forall k | k in s.proxies :: s.proxies[k] == Proxy(s.targets[k]))
  }

  lemma {:induction false} RunsKeepMapsInStep(states: seq<Service>, events: seq<Event>, parses: string -> bool)
    requires IsRun(states, events, parses)
    requires states[0] == Load(states[0].file, parses)
    ensures forall i | 0 <= i < |states| :: InStep(states[i], parses)
  {
    if events != [] {
      var n := |events| - 1;
      RunsKeepMapsInStep(states[..n + 1], events[..n], parses);
      assert InStep(states[..n + 1][n], parses);
      assert Step(states[n], events[n], states[n + 1], parses);
    }
  }

  /** Every target in memory and every target the file would load parses. */
  ghost predicate AllParse(s: Service, parses: string -> bool) {
    (forall k | k in s.targets :: parses(s.targets[k]))
    && forall k | k in Stored(s.file) :: parses(Stored(s.file)[k])
  }

  lemma StoredAfterContent(before: Option<string>, content: string, table: Table, write: Write)
    requires Decode(content) == Some(table)
    requires write.Cut? && write.at < |content| ==> Decode(content[..write.at]) == None
    ensures var found := Stored(AfterWrite(before, content, write));
            && (write.Written? ==> found == table)
            && (write.Unopened? ==> found == Stored(before))
            && (write.Cut? ==> found == if write.at < |content| then map[] else table)
  {
    if write.Cut? && write.at == |content| {
      assert content[..|content|] == content;
    }
  }

  /** What a restart finds after a save: the new table, the old file's, or nothing. */
  lemma StoredAfterWrite(before: Option<string>, table: Table, order: seq<string>, write: Write)
    requires Enumerates(order, table.Keys)
    ensures var found := Stored(AfterWrite(before, Encode(table, order), write));
            && (write.Written? ==> found == table)
            && (write.Unopened? ==> found == Stored(before))
            && (write.Cut? ==> found == if write.at < |Encode(table, order)| then map[] else table)
  {
    RoundTrip(table, order);
    if write.Cut? && write.at < |Encode(table, order)| {
      CutFails(table, order, write.at);
    }
    StoredAfterContent(before, Encode(table, order), table, write);
  }

  lemma StepKeepsAllParse(before: Service, e: Event, after: Service, parses: string -> bool)
    requires Step(before, e, after, parses) && AllParse(before, parses)
    ensures AllParse(after, parses)
  {
    if e.Create? && parses(e.target) {
      var order :| Enumerates(order, after.targets.Keys)
        && after.file == AfterWrite(before.file, Encode(after.targets, order), e.write);
      StoredAfterWrite(before.file, after.targets, order, e.write);
    }
  }

  /** From a file of its own making, whatever saves failed, a service only holds targets that parse. */
  lemma {:induction false} RunsKeepAllParse(states: seq<Service>, events: seq<Event>, parses: string -> bool)
    requires IsRun(states, events, parses) && AllParse(states[0], parses)
    ensures forall i | 0 <= i < |states| :: AllParse(states[i], parses)
  {
    if events != [] {
      var n := |events| - 1;
      RunsKeepAllParse(states[..n + 1], events[..n], parses);
      assert AllParse(states[..n + 1][n], parses);
      StepKeepsAllParse(states[n], events[n], states[n + 1], parses);
    }
  }

  /** The two lookups give the same answer: the same target, or none at all. */
  ghost predicate Agree(s: Service, path: string) {
    match LookupProxy(s, path)
    case Some(proxy) => LookupTarget(s, path) == proxy.target
    case None => LookupTarget(s, path) == ""
  }

  /** For any table, however loaded, the lookups agree exactly when the longest target parses. */
  lemma AgreeExactly(s: Service, path: string, parses: string -> bool)
    requires InStep(s, parses) && parses("")
    ensures Agree(s, path) <==>
            Longest(s.targets.Keys, path) == None || parses(LookupTarget(s, path))
  {
    var best := Longest(s.targets.Keys, path);
    LongestIsLongest(s.targets.Keys, path, if best.Some? then best.value else "");
    var found := Longest(s.proxies.Keys, path);
    LongestIsLongest(s.proxies.Keys, path, if found.Some? then found.value else "");
    if best.Some? && parses(s.targets[best.value]) {
      assert IsLongest(s.proxies.Keys, path, best.value);
      LongestIsLongest(s.proxies.Keys, path, best.value);
    }
  }

  /** In every run from an empty or self-written file the two lookups agree on every path. */
  lemma RunsAgree(states: seq<Service>, events: seq<Event>, parses: string -> bool, i: nat, path: string)
    requires IsRun(states, events, parses) && i < |states| && parses("")
    requires states[0] == Load(states[0].file, parses) && AllParse(states[0], parses)
    ensures Agree(states[i], path)
  {
    RunsKeepMapsInStep(states, events, parses);
    RunsKeepAllParse(states, events, parses);
    AgreeExactly(states[i], path, parses);
    LongestIsLongest(states[i].targets.Keys, path, LongestOr(states[i].targets.Keys, path));
  }

  ghost function LongestOr(keys: set<string>, path: string): string {
    match Longest(keys, path)
    case None => ""
    case Some(k) => k
  }

  /** Loading any file with a target that does not parse makes the lookups differ on the paths it is longest for. */
  lemma ForeignTableDisagrees(table: Table, order: seq<string>, parses: string -> bool, path: string, k: string)
    requires Enumerates(order, table.Keys) && parses("")
    requires IsLongest(table.Keys, path, k) && !parses(table[k])
    ensures !Agree(Load(Some(Encode(table, order)), parses), path)
  {
    RoundTrip(table, order);
    LongestIsLongest(table.Keys, path, k);
    AgreeExactly(Load(Some(Encode(table, order)), parses), path, parses);
  }

  /** There are such files, edited by hand. */
  lemma ForeignFileDisagrees()
    ensures exists file: string, parses: string -> bool, path ::
              parses("") && !Agree(Load(Some(file), parses), path)
  {
    var parses := (t: string) => t != ":";
    var table: Table, order := map["/" := "u", "/a" := ":"], ["/", "/a"];
    assert Enumerates(order, table.Keys);
    assert HasPrefix("/a", "/a") && IsLongest(table.Keys, "/a", "/a");
    ForeignTableDisagrees(table, order, parses, "/a", "/a");
  }

  /** The file holds the table in memory. */
  ghost predicate Persisted(s: Service) {
    Stored(s.file) == s.targets
  }

  lemma SuccessPersists(before: Service, e: Event, after: Service, parses: string -> bool)
    requires Step(before, e, after, parses)
    requires e.Create? && e.err == Nil
    ensures Persisted(after) && parses(e.target) && after.targets == before.targets[e.path := e.target]
  {
    var order :| Enumerates(order, after.targets.Keys)
      && after.file == AfterWrite(before.file, Encode(after.targets, order), e.write);
    StoredAfterWrite(before.file, after.targets, order, e.write);
  }

  /** Nothing is registered: a restart, or a registration refused for its target. */
  predicate Quiet(e: Event, parses: string -> bool) {
    e.Restart? || !parses(e.target)
  }

  /** Once memory and file agree, they do so through restarts and refused registrations, unchanged. */
  lemma {:induction false} QuietKeepsService(states: seq<Service>, events: seq<Event>, parses: string -> bool, c: nat)
    requires IsRun(states, events, parses) && c <= |events|
    requires Persisted(states[c]) && InStep(states[c], parses)
    requires forall j | c <= j < |events| :: Quiet(events[j], parses)
    ensures states[|events|] == states[c] == Load(states[c].file, parses)
  {
    assert states[c].proxies == ProxiesOf(states[c].targets, parses);
    if c < |events| {
      var n := |events| - 1;
      QuietKeepsService(states[..n + 1], events[..n], parses, c);
      assert Step(states[n], events[n], states[n + 1], parses);
    }
  }

  /**
   After any run in which the last registration that was accepted has been saved, whatever earlier
   saves did and whatever restarts came since, a restarted service holds the same tables, and so
   answers every lookup the same.
   */
  lemma RestartIsInvisible(states: seq<Service>, events: seq<Event>, parses: string -> bool, c: nat, path: string)
    requires IsRun(states, events, parses) && c < |events|
    requires states[0] == Load(states[0].file, parses)
    requires events[c].Create? && events[c].err == Nil
    requires forall j | c < j < |events| :: Quiet(events[j], parses)
    ensures var final := states[|events|]; var restarted := Load(final.file, parses);
            && restarted == final
            && LookupProxy(restarted, path) == LookupProxy(final, path)
            && LookupTarget(restarted, path) == LookupTarget(final, path)
  {
    RunsKeepMapsInStep(states, events, parses);
    assert Step(states[c], events[c], states[c + 1], parses);
    SuccessPersists(states[c], events[c], states[c + 1], parses);
    QuietKeepsService(states, events, parses, c + 1);
  }

  /** A registration whose save failed is still served; a restart sees it, the old file, or nothing. */
  lemma FailedSave(before: Service, e: Event, after: Service, parses: string -> bool)
    requires Step(before, e, after, parses) && e.Create? && e.err == Failed && parses(e.target)
    ensures after.proxies[e.path] == Proxy(e.target) && after.targets[e.path] == e.target
    ensures Load(after.file, parses).targets in {after.targets, Stored(before.file), map[]}
  {
    var order :| Enumerates(order, after.targets.Keys)
      && after.file == AfterWrite(before.file, Encode(after.targets, order), e.write);
    StoredAfterWrite(before.file, after.targets, order, e.write);
  }
}
