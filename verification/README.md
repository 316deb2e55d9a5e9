# Verified model of the NimoOS gateway

The gateway is the single entry point of a NimoOS machine. It proxies requests to local
services by the longest registered path prefix, guards internal endpoints, reloads its
HTTP and HTTPS servers while running, keeps its route table in a file, and scans the local
network for other machines. This project models those parts in Dafny and proves what they
promise. `dafny verify dfyconfig.toml` checks everything.

## How it is organised

- `Worlds`, `Gateways`, `GatewayRuns`, `ProbeRetry`: hot reload. `Worlds` is a transition
  system of atomic steps; the goroutines that stop old servers may fire between any two.
  `Gateways` holds the package variables of `main.go` (`Process`) and `service.State`
  (`State`) as classes whose methods log every step they take, so that each method is shown
  to be a run of the system. `GatewayRuns` has whole calls, runs of requests, and startup.
- `Words`, `Ipv4`, `Subnet`, `ScanTargets`, `ScanHosts`, `ScanLan`, `Counting`: the LAN scan.
  `ScanHosts` is a transition system in which every interleaving of the goroutines is a run.
- `Text`, `PathClean`, `InternalPath`, `SourceIP`, `Handler`: the guards in front of the proxy.
- `RoutesJson`, `RouteTable`: the route table, its two lookups, and its file.
- `Components`: the concurrent gathering of component statuses.

Files, sockets, probes, certificate generation and context cancellation answer as they
please: their answers are parameters or nondeterministic choices, and every theorem holds for
all of them. Those of the reloads are a sequence fixed in advance, so that it can be said when
a reload, a request or a start must succeed: with good answers, wherever no listener of the
process's own is in the way. Strings are sequences of bytes (of Unicode scalar values in `RoutesJson`).

## What a maintainer may not expect

- A successful `SetGatewayPort` leaves the running server and the config file on the
  previous port: the field is stored only after every observer has run, so they read the old
  value. The switch takes effect at the next notification. `OVERVIEW.md` describes an
  immediate switch; the model follows the code (`SwitchTakesEffectExactly`).
- The port picked automatically at startup is not left in the config file (`StartGateway`);
  file and settings agree after a start exactly when a port was configured (`Boot`).
- The retry counter is unsigned and tested with `>= 0`, so the helper never gives up and
  never returns an error (`CheckWithRetry`). The branch for a failed probe is modelled all the
  same; in it the listener is not closed, and its port can never be bound again
  (`OrphanedPortIsLost`). No listener leaks in any other way (`LeaksExactly`).
- A port change that fails can leave the rejected port in the config file: the port observer
  writes it first, and when a later reload fails nothing takes it back. The state and the
  server stay on the old port until the next start, which reads the rejected one
  (`RejectedPortExactly`, `SwitchPort`).
- Setting HTTPS to the gateway's own port fails but is stored; from then on every port change
  fails, in just that way, until the SSL settings are changed (`LockOut`). No other settings
  with properly written ports are impossible to meet (`ReloadableExactly`).
- An IPv6 loopback peer is printed as `[::1]:port`; with the brackets it is not recognised as
  local, so its forwarded address is dropped (`PrintedPeersTrustedExactly`).
- A hand-edited routes file with a target that does not parse makes the two prefix lookups
  disagree; they agree exactly when the longest matching target parses (`AgreeExactly`).
- `ipLess` is not transitive on lists mixing addresses with other text
  (`IpLessCyclesOnMixedText`), and exactly on which is `TransitiveExactly`; on the lists the
  scan builds it is numeric order.
- `OVERVIEW.md` describes the internal guard as a search for the text `/_internal/`; the code,
  and the model, compare whole segments after decoding and cleaning.
- Reloading spawns the goroutine that stops the old server before it replaces the pointer.
  In that window, and only then, the current server is also about to stop; its probed
  successor already listens, so requests are still served (`CurrentServersAreSound`,
  `HandOverHappens`).
- A cancelled scan can list a device without the name and version an uncancelled one shows
  (`CancellingBlanksDetails`); it always gives a sub-list only when no machine that answers
  has any to lose (`SubListsExactly`).

## Model

| member | source | states |
|---|---|---|
| Worlds.StepKeepsInv | main.go:392-579 | every atomic step of a reload, and every firing of a stopping goroutine, keeps the protocol's invariant |
| Worlds.RunsKeepInv | main.go:392-579 | the invariant holds in every reachable state under every interleaving |
| Worlds.PortsAreExclusive | main.go:480-483 | in no reachable state do two listeners of the process, HTTP or HTTPS, share a port |
| Worlds.ListenersHaveOneOwner | main.go:392-579 | every listener is current, starting, about to stop or orphaned, and only one of these outside the hand-over window |
| Worlds.CurrentServersAreSound | main.go:504-523 | a current server is probed, and it serves exactly when it is not being handed over; while it is, its probed successor serves |
| Worlds.HandOverHappens | main.go:511-523 | a run from the start in which the current server is about to stop |
| Worlds.CurrentMeansServing | main.go:511-523 | whenever a role has a current server, a live probed listener of that role serves that nobody is about to stop |
| Worlds.ZeroDowntime | main.go:471-524 | from a state with a current server, while the settings keep asking for it, every intermediate state of every run is served |
| Worlds.OrphansKeepTheirPort | main.go:504-507 | a listener abandoned after a failed probe stays live on its port in every later state |
| Worlds.OrphanedPortIsLost | main.go:480-507 | after a failed probe on a port no later step can bind that port again |
| Worlds.LeaksExactly | main.go:504-507 | listeners are orphaned in a run exactly when one of its probes failed |
| Worlds.NoAssignKeepsSettings | service/state.go:42-52 | steps of observers never change the stored settings |
| Worlds.CanonicalExactly | main.go:471-483 | the canonical ports are exactly the numbers 1 to 65535 as they are printed |
| Gateways.Process.Yield | main.go:513-519 | any number of old servers may be stopped, nothing else changes |
| Gateways.Process.Listen | main.go:480-502 | binding fails exactly when it is refused or the port is held; success makes a new listening server |
| Gateways.Process.Probe | main.go:504-507 | it succeeds exactly when an attempt does; success makes the new server ready, failure orphans its listener |
| Gateways.Process.Install | main.go:511-523 | the old server is handed to its goroutine, then the new one becomes current |
| Gateways.Process.ReloadServer | main.go:471-579 | success leaves a server on the port, a failure leaves the old one in place; a running server on the port is kept; on a free port it succeeds exactly when the bind is not refused and the server answers |
| Gateways.Process.RetireServer | main.go:398-409 | a server no longer wanted is dropped and handed to a goroutine that stops it |
| Gateways.Process.ReloadGateways | main.go:392-469 | success leaves both servers as the settings ask; a failure never touches HTTPS, and HTTP only if it is right; with sensible settings, no listener in the way and good answers it succeeds, and takes no other port |
| Gateways.Process.WriteConfig | main.go:138-145 | a write that is answered well stores the remembered settings; any other keeps or loses the file |
| Gateways.Process.CallConfig | main.go:133-145 | what each config observer achieves and leaves alone, what config object and file hold after it, failed or not, and when it must succeed |
| Gateways.Process.CallPort | main.go:133-136 | the port observer sets the new port with the other remembered values; a failed write keeps or loses the file; servers stay, and good answers mean success |
| Gateways.State.NotifyConfig | service/state.go:77-84 | observers are called newest first up to the first failure, all seeing the stored settings; the calls explain the file; success settles what they are for; with nothing in the way and good answers it succeeds |
| Gateways.State.NotifyPort | service/state.go:63-71 | port observers are called newest first up to the first failure; the calls explain the file; the servers stay as they are; good answers mean success |
| Gateways.State.SetGatewayPort | service/state.go:42-52 | it fails exactly if an observer does, and stores the port exactly on success, after observers that all saw the old settings; in every outcome the file is determined by who saved last; with nothing in the way and good answers it succeeds |
| Gateways.State.SetSSLEnabled | service/state.go:86-89 | the field is stored even when the notification fails; the observers called all saw it, and they explain the file |
| Gateways.State.SetSSLPort | service/state.go:95-98 | the field is stored even when the notification fails; the observers called all saw it, and they explain the file |
| Gateways.State.SetSSLDomain | service/state.go:104-107 | the field is stored even when the notification fails; the observers called all saw it, and they explain the file |
| Gateways.State.SetSSLCertType | service/state.go:113-116 | the field is stored even when the notification fails; the observers called all saw it, and they explain the file |
| Gateways.SettledNext | main.go:138-145 | a further successful observer adds its own effect and undoes no other's |
| Gateways.ConfigsRunNext | service/state.go:77-84 | one more observer, whatever it is, extends what a row of them has called, saved, settled and promised |
| Gateways.SensibleExactly | main.go:471-579 | of settings with properly written ports the sensible are those that do not put both servers on one |
| Gateways.GoodAnswersExist | main.go:471-629 | some answers are good throughout |
| Gateways.RecordedConcat | main.go:133-145 | the effects of two stretches of observer calls on config object and file compose |
| Gateways.FileAfterConfigs | main.go:138-145 | after config observers an unlost file holds what they saw if one saved it, else what it held |
| Gateways.FileAfterPorts | main.go:133-136 | after port observers an unlost file holds the new port if one saved it, else what it held |
| GatewayRuns.SetSSLConfig | service/management.go:158-173 | success settles all five fields; it fails exactly if an observer does, whose call on the fields stored so far is the last; every call is determined; where nothing is in the way and the answers are good it succeeds; HTTPS on the gateway's port always fails |
| GatewayRuns.RequestIsPossible | service/management.go:158-173 | nothing is in the way when the servers are as stored and the ports the request may need are free |
| GatewayRuns.SettledMeans | service/management.go:158-173 | after success HTTP serves on the stored port, HTTPS on its port or is absent, and the file holds all five fields |
| GatewayRuns.SwitchTakesEffectExactly | service/state.go:42-52 | after a successful change to any port, or to none, servers and file follow it exactly when it equals the old one |
| GatewayRuns.SwitchFrom80IsLate | service/state.go:42-52 | a run from the start that switches from 80 to 8080 and leaves server and file on 80 |
| GatewayRuns.SwitchThenNotify | service/state.go:42-116 | a successful port change followed by any successful SSL setter puts servers and file on the new port; config observers of the first saw the old settings, those of the second the new |
| GatewayRuns.RejectedPortExactly | service/state.go:42-84 | after a failed port change the file holds the rejected port exactly when a port observer saved it, no config observer saved after, and a failed save did not lose the file |
| GatewayRuns.SwitchMeans | main.go:133-145 | what a port change with the program's own observers comes to, by how far it got |
| GatewayRuns.SwitchPort | main.go:133-145 | with the program's own observers that is exactly when the failure came after the port observer's save; while HTTPS is set to the gateway's port every change fails, and in its reload if the save succeeded |
| GatewayRuns.LockOut | service/management.go:134-173 | a request for HTTPS on the gateway's own port fails but is stored; then every port change fails, and leaves the rejected port in the file unless its save fails |
| Gateways.ClashIsNotReloadable | main.go:471-579 | no state of the process meets settings that put HTTPS on the gateway's port |
| GatewayRuns.ReloadableExactly | main.go:392-469 | some run from the start meets the settings exactly when they do not put both servers on one port |
| GatewayRuns.ServeRequest | service/management.go:134-173 | a request leaves the fields its result and its stored fields say, and fails exactly if an observer does |
| GatewayRuns.ServeRequests | service/management.go:134-173 | over any run of requests with any failures the fields are those of the replayed results, the port that of the last change that succeeded, and the calls explain the file |
| GatewayRuns.ReplayedPort | service/management.go:134-173 | replayed results leave the port of the last change that succeeded |
| GatewayRuns.RunsAreServed | main.go:471-524 | if no empty port is ever stored, every intermediate state of the run has a live probed HTTP server |
| GatewayRuns.ServeWithoutDowntime | main.go:471-524 | serving any requests for non-empty ports keeps an HTTP server up at every step |
| GatewayRuns.PickPort | main.go:306-332 | the first candidate that could be bound and released, else the last one; never empty |
| GatewayRuns.CandidatesAreNumbers | main.go:308-319 | the candidates are the numbers 80 to 89 and 8080 to 8089 as they are printed |
| GatewayRuns.StartGateway | main.go:303-350 | success leaves the servers as stored; a configured port leaves fields and file alone; a picked one is stored, the SSL fields kept, and the file is written without it; before anything listens sensible settings and good answers mean success |
| GatewayRuns.LoadState | main.go:102-145 | the state starts with the file's values, and loading them does not write the file |
| GatewayRuns.Boot | main.go:102-350 | after a successful start the file holds the settings in use exactly when it named a port; after a failed one it may hold a picked port that was not stored; sensible settings and good answers mean success |
| ProbeRetry.CounterWraps | main.go:614-629 | the retry counter is the bound minus the failures modulo 2^64 |
| ProbeRetry.CheckWithRetry | main.go:597-629 | the loop ends exactly when an attempt succeeds, and then without an error |
| Ipv4.ParsePrinted | service/lan_discovery.go:73-81 | every 32-bit address parses back from its printed text |
| Ipv4.PrintedInOrder | service/lan_discovery.go:73-81 | an address prints as its four bytes in decimal, the most significant first |
| Ipv4.ParsedIsPrinted | service/lan_discovery.go:206-212 | any text that parses is the text its address prints as |
| Ipv4.IpLessIsNumeric | service/lan_discovery.go:206-212 | on printed addresses the comparator is numeric order |
| Ipv4.TransitiveExactly | service/lan_discovery.go:206-212 | on any texts without colons the comparator is transitive exactly when no text that is no address sorts after one address and before a numerically lesser one |
| Ipv4.ClashIsCycle | service/lan_discovery.go:206-212 | any three texts that clash so form a cycle |
| Ipv4.IpLessCyclesOnMixedText | service/lan_discovery.go:206-212 | three concrete texts that do |
| Words.AndHighBits | service/lan_discovery.go:73-74 | masking with a prefix clears exactly the low bits |
| Words.BlockExactly | service/lan_discovery.go:73-74 | the base is the multiple of the block size at or just below the address |
| Words.BlockInRange | service/lan_discovery.go:73-81 | a block of addresses never passes the end of the 32-bit range |
| Subnet.ListInside | service/lan_discovery.go:74-81 | the counting loop lists the inside of the block, its 32-bit additions never wrapping |
| Subnet.LinkLocalExactly | service/lan_discovery.go:58-61 | the addresses left out are 169.254.0.0 to 169.254.255.255 |
| Subnet.SubnetHosts | service/lan_discovery.go:58-82 | the loop computes the printed host list, empty for link-local, non-IPv4, /31 and /32 |
| Subnet.SubnetAddrsInterval | service/lan_discovery.go:73-81 | the list has 2^(32-n)-2 consecutive addresses, at most 254 |
| Subnet.SubnetAddrsExact | service/lan_discovery.go:58-82 | an address is listed exactly when it has the narrowed prefix and is neither network nor broadcast |
| Subnet.SubnetAddrsInside | service/lan_discovery.go:54-57 | every listed address is in the interface's own subnet and in the /24 of its address |
| Subnet.SubnetHostsSorted | service/lan_discovery.go:73-81 | the list is already strictly sorted by the scan's comparator |
| ScanTargets.AddHosts | service/lan_discovery.go:113-122 | one subnet's new hosts are added in order, stopping when one more would pass 1024 |
| ScanTargets.EnumerateScanTargets | service/lan_discovery.go:88-126 | the hosts are the first 1024 of the deduplicated concatenation, truncated iff there are more; the own addresses are those of all networks, or of those up to the one that overflowed |
| ScanTargets.ScopeIsUnique | service/lan_discovery.go:88-126 | the interfaces determine hosts, own addresses and truncation |
| ScanTargets.DedupExact | service/lan_discovery.go:113-121 | deduplication keeps exactly the elements, each once |
| ScanTargets.ScopeIsDistinct | service/lan_discovery.go:84-87 | no host is listed twice and only hosts of local networks are listed |
| ScanHosts.RunsKeepInv | service/lan_discovery.go:177-201 | in every interleaving at most 128 goroutines hold a slot and the shared list is what they have appended |
| ScanHosts.NeverStuck | service/lan_discovery.go:184-201 | while a goroutine is not done, some goroutine can move |
| ScanHosts.RunsEnd | service/lan_discovery.go:182-201 | every run has at most five steps per host besides cancellations |
| ScanHosts.SortedIsAscending | service/lan_discovery.go:202-203 | the sorted list of any run is strictly ascending in numeric order |
| ScanHosts.ScanIsDeterministic | service/lan_discovery.go:177-204 | every interleaving and every unstable sort give the same list: the hosts that answer, each once, with the hostname and version answered and the right flag |
| ScanHosts.CancelledScanIsSubList | service/lan_discovery.go:188-203 | with cancellation the addresses are a subsequence of the uncancelled ones and each device is as there or has empty hostname and version |
| ScanHosts.CancellingBlanksDetails | service/lan_discovery.go:148-157 | for any host of any scan that answers, a cancelled run that lists it alone and without details |
| ScanHosts.SubListsExactly | service/lan_discovery.go:177-204 | every scan's list, whenever cancelled, is a sub-list of the uncancelled one exactly when no machine that answers has a name or version to lose |
| ScanLan.ScopeFitsScan | service/lan_discovery.go:216-222 | the enumerated scope is always distinct and made of addresses, as the scan needs |
| ScanLan.ScanLanIsDeterministic | service/lan_discovery.go:216-222 | two uncancelled scans of the same interfaces, each enumerating its own scope, return the same list and flag: hosts in scope that answer, marked as own exactly if they are |
| PathClean.LazyBuf.Append | route/gateway_route.go:150 | writing a byte extends the buffer's contents, allocated or not |
| PathClean.Backtrack | route/gateway_route.go:150 | backing up to the previous slash drops exactly the last segment |
| PathClean.Clean | route/gateway_route.go:150 | the byte loop over a rooted path computes the rendered stack of its segments |
| PathClean.SegmentsOfRender | route/gateway_route.go:150 | reading a cleaned path gives its segments back |
| InternalPath.UnescapeAtSlash | route/gateway_route.go:147-149 | percent-decoding works on each side of a slash alone |
| InternalPath.EncodedDecodes | route/gateway_route.go:147-149 | a path decodes from every percent-encoding of it, any bytes encoded, digits in either case |
| InternalPath.DecodedIsEncoded | route/gateway_route.go:147-149 | text decodes to a path only if it is one of its encodings |
| InternalPath.UnescapeFailsExactly | route/gateway_route.go:147-149 | decoding fails exactly when some percent sign is not followed by two hexadecimal digits |
| InternalPath.IsInternalPath | route/gateway_route.go:143-157 | true exactly when, after one decode, some segment left by stack resolution is "_internal" in lower case, Unicode's dotted I included |
| InternalPath.NameIsGuarded | route/gateway_route.go:139-157 | a last segment that is "_internal" in lower case is internal wherever it is reached |
| Text.SplitToLower | route/gateway_route.go:150-151 | lower-casing and splitting commute, so lower-casing makes no segment boundary |
| Text.ToLowerExactly | route/gateway_route.go:150 | lower-casing goes letter by letter, with the dotted capital I the one character that shortens |
| InternalPath.CleanIsIdempotent | route/gateway_route.go:150 | cleaning a clean path changes nothing |
| InternalPath.VerdictIgnoresDetour | route/gateway_route.go:139-142 | inserting text that leads nowhere at a segment boundary never changes the verdict |
| InternalPath.CommonDetours | route/gateway_route_internal_test.go:84-90 | doubled slashes, "." and "name/.." are such insertions |
| InternalPath.VerdictIgnoresCase | route/gateway_route.go:139-142 | changing ASCII letter case anywhere never changes the verdict |
| InternalPath.VerdictSeesThroughEscapes | route/gateway_route.go:147-149 | the verdict on any encoding of any path is that on the path taken as it is |
| SourceIP.Request.RewriteSourceIP | route/gateway_route.go:25-66 | a trusted peer's last hop of the first value is forwarded, exactly when that value is not empty; the real-IP header never; other headers untouched |
| SourceIP.SingleHopIsForwarded | route/gateway_route.go:39-61 | a trusted peer's single address is forwarded as it is, anyone else's is dropped |
| SourceIP.NoSpellingSurvives | route/gateway_route.go:49-61 | no spelling of the real-IP header reaches the upstream, and of the forwarded one only the single hop |
| SourceIP.InjectedHopsAreIgnored | route/gateway_route.go:26-33 | what a client writes before its proxy's entry has no effect |
| SourceIP.TrustedExactly | route/gateway_route.go:54-55 | a peer is trusted exactly when the text before its port is 127.0.0.1 or ::1 |
| SourceIP.PrintedPeersTrustedExactly | route/gateway_route.go:54-55 | of the peers as the server prints them only 127.0.0.1 is trusted, never a bracketed ::1 |
| Handler.GatewayRoute.Handle | route/gateway_route.go:70-134 | a request is forwarded exactly when every guard lets it and a route matches, and then with its source headers rewritten |
| Text.AffixesExactly | route/gateway_route.go:117-120 | the prefix and suffix tests mean that the rest can be split off |
| Handler.RespellingsKeepVerdict | route/gateway_route.go:139-142 | no chain of respellings by case, detours and encoding, in any order, changes the verdict |
| Handler.InternalIsNeverForwarded | route/gateway_route.go:94-108 | an internal path, however often respelt, is never forwarded |
| Handler.ForwardedToLongest | route/gateway_route.go:122-133 | a forwarded request goes to the stored target of the longest registered prefix |
| RoutesJson.CharRoundTrip | service/management.go:201-207 | every encoded character reads back and no proper part of it does |
| RoutesJson.ShortEscapeReads | service/management.go:192-196 | two-character escapes read as in section 7 of RFC 8259 |
| RoutesJson.CodeUnitReads | service/management.go:192-196 | the four digits of an escape count from the left |
| RoutesJson.SpaceIsIgnored | service/management.go:192-196 | space before and after a mark, and before the text, makes no difference |
| RoutesJson.RoundTrip | service/management.go:186-207 | decoding an encoded table gives it back for every order of its keys |
| RoutesJson.CutFails | service/management.go:201-207 | no proper prefix of an encoded table decodes |
| RouteTable.LongestIsLongest | service/management.go:117-128 | the reference lookup finds the unique longest registered prefix, and misses exactly when there is none |
| RouteTable.GetSortedKeys | service/management.go:174-184 | the keys of the map in some order of descending length |
| RouteTable.FirstPrefix | service/management.go:122-127 | scanning any such order, the first match is the longest prefix |
| RouteTable.BuildProxies | service/management.go:61-73 | exactly the parseable targets get a proxy built from them |
| RouteTable.Management.constructor | service/management.go:51-80 | the stored table, or an empty one when the file is missing or unreadable |
| RouteTable.Management.CreateRoute | service/management.go:82-102 | a parse failure changes nothing; otherwise both maps are updated even if the save fails |
| RouteTable.Management.GetProxy | service/management.go:117-128 | the proxy of the longest registered prefix for every map order and unstable sort |
| RouteTable.Management.ResolveTarget | service/components.go:54-67 | the target of the longest registered prefix, or the empty string |
| RouteTable.RunsKeepMapsInStep | service/management.go:51-102 | over any run of registrations and restarts the proxies are exactly those of the parseable targets |
| RouteTable.StoredAfterWrite | service/management.go:186-207 | a restart after a save finds the new table, the old file's, or nothing |
| RouteTable.RunsKeepAllParse | service/management.go:51-102 | a service that only reads its own files holds only targets that parse, whatever saves failed |
| RouteTable.AgreeExactly | service/components.go:54-67 | for any table the two lookups agree exactly when the longest matching target parses or none matches |
| RouteTable.RunsAgree | service/components.go:54-67 | in every run from an empty or self-written file the two lookups agree on every path |
| RouteTable.ForeignTableDisagrees | service/components.go:54-67 | loading any file whose longest match for a path does not parse makes the lookups differ there |
| RouteTable.ForeignFileDisagrees | service/components.go:54-67 | there is such a file |
| RouteTable.RestartIsInvisible | service/management_test.go:21-61 | once the last accepted registration is saved, and after any restarts and refused registrations since, a restarted service answers every lookup the same |
| RouteTable.FailedSave | service/management.go:88-99 | a route whose save failed is served at once; a restart sees the new table, the old file or nothing |
| Components.RunsKeepInv | service/components.go:74-87 | in every interleaving a slot holds its own entry's status once written, and tokens match signals |
| Components.SignalNeverBlocks | service/components.go:76-81 | the channel always has room for a finished entry's signal |
| Components.NeverStuck | service/components.go:78-87 | while signals are awaited something can move |
| Components.RunsEnd | service/components.go:74-87 | every run has at most three steps per entry |
| Components.GatherIsOrdered | service/components.go:71-90 | whatever the completion order, each row is in its place: one status per manifest entry in order, then the UI, then the external rows |

## Left out

- IpLess: text with a colon (IPv6, or IPv4 mapped into IPv6) is excluded; the scan never lists any.
- Decode: a file holding only `null` loads as a nil map in the code; it is not part of this model.
- ToLower: bytes above 0x7F other than the dotted capital I are left alone; the code may change them, but never to a letter of the guarded name nor to a slash.
- CanonicalKey: names with bytes no header name may have are not treated apart; the HTTP server refuses them.
- Gateways.Process.Probe: a probe that never succeeds keeps the helper waiting forever; here a helper still waiting when the attempts end counts as failed, and what a probe asks for is not modelled.
- Gateways.Process.RetireServer: clearing the pointer and spawning the goroutine are one step, as nothing else reads either in between.
- Gateways.Process.Listen: ports written otherwise than a number from 1 to 65535 without leading zeros may bind any port; the safety theorems cover them, being bound to exactly that port does not.
- GatewayRuns.ServeRequests: management requests are served one at a time; the code has no locks and its races are not modelled.
- PathClean.Clean: only rooted paths, as the guard always passes one.
- Certificates: generating and parsing them is one choice that succeeds or fails; the comparison of the common name with the domain is not modelled.
- URL parsing: whether a target parses is a fixed predicate of the target, and proxying itself is not modelled.
- Redirects of unclean paths by the HTTP multiplexer before the handler, CORS headers, tokens, upload handlers and static files.
- Probe contents: `probePeer` and `probeComponent` are fixed functions of the host or the manifest entry.
- Shutdown of the process, the pid and address files, and service-manager notification.
