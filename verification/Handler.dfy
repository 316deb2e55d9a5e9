/** The gateway's handler: what becomes of one request. */
module Handler {
  import opened Wrappers
  import opened Text
  import opened SourceIP
  import opened InternalPath
  import opened RouteTable

  datatype Decision = Preflight | Pong | NotFound | Forward(proxy: Proxy)

  /** Version endpoints are for internal probing, with one exception. */
  predicate HiddenVersion(path: string) {
    HasSuffix(path, "/version") && path != "/v1/sys/version"
  }

  /** When a request reaches an upstream, and which. */
  ghost predicate MayForward(s: Service, verb: string, path: string, proxy: Proxy) {
    && verb != "OPTIONS" && path != "/ping"
    && !Internal(path) && !HiddenVersion(path)
    && LookupProxy(s, path) == Some(proxy)
  }

  class GatewayRoute {
    const management: Management

    constructor (management: Management)
      ensures this.management == management
    {
      this.management := management;
    }

    /**
     A request is forwarded exactly when every guard lets it and a route matches; it is forwarded
     with its source-address headers rewritten, and otherwise left as it came.
     */
    method Handle(r: Request) returns (d: Decision)
      requires ':' in r.remoteAddr
      modifies r
      ensures d.Forward? ==> MayForward(management.Now(), r.verb, r.path, d.proxy)
      ensures !d.Forward? ==> forall p :: !MayForward(management.Now(), r.verb, r.path, p)
      ensures if d.Forward? then Rewritten(old(r.header), r.remoteAddr, r.header) else r.header == old(r.header)
      ensures d.Preflight? <==> r.verb == "OPTIONS"
      ensures d.Pong? <==> r.verb != "OPTIONS" && r.path == "/ping"
    {
      if r.verb == "OPTIONS" { return Preflight; }
      if r.path == "/ping" { return Pong; }
      var internal := IsInternalPath(r.path);
      if internal { return NotFound; }
      if HasSuffix(r.path, "/version") && r.path != "/v1/sys/version" { return NotFound; }
      var proxy := management.GetProxy(r.path);
      if proxy == None { return NotFound; }
      r.RewriteSourceIP();
      return Forward(proxy.value);
    }
  }

  /** The second path inserts a detour into the first at a segment boundary. */
  ghost predicate DetourInserted(p: string, q: string, a: string, detour: string, b: string) {
    Detour(detour) && p == a + "/" + b && q == a + "/" + detour + "/" + b
  }

  /** Another spelling: other letter case, a detour inserted, or bytes of a percent-free path encoded. */
  ghost predicate Respelt(p: string, q: string) {
    || Lower(p) == Lower(q)
    || (exists a, detour, b :: DetourInserted(p, q, a, detour, b))
    || ('%' !in p && exists how :: Encodable(p, how) && q == Encoded(p, how))
  }

  lemma RespellingKeepsVerdict(p: string, q: string)
    requires Respelt(p, q)
    ensures Internal(p) <==> Internal(q)
  {
    if Lower(p) == Lower(q) {
      VerdictIgnoresCase(p, q);
    } else if how :| '%' !in p && Encodable(p, how) && q == Encoded(p, how) {
      VerdictSeesThroughEscapes(p, how);
    } else {
      var a, detour, b :| DetourInserted(p, q, a, detour, b);
      VerdictIgnoresDetour(a, detour, b);
    }
  }

  /** Spelling after spelling, in either direction. */
  ghost predicate Respellings(paths: seq<string>) {
    forall i | 0 < i < |paths| :: Respelt(paths[i - 1], paths[i]) || Respelt(paths[i], paths[i - 1])
  }

  lemma {:induction false} RespellingsKeepVerdict(paths: seq<string>)
    requires Respellings(paths) && paths != []
    ensures Internal(paths[0]) <==> Internal(paths[|paths| - 1])
  {
    var n := |paths| - 1;
    if n > 0 {
      RespellingsKeepVerdict(paths[..n]);
      if Respelt(paths[n - 1], paths[n]) {
        RespellingKeepsVerdict(paths[n - 1], paths[n]);
      } else {
        RespellingKeepsVerdict(paths[n], paths[n - 1]);
      }
    }
  }

  /** However often an internal path is respelt, by case, detours and encoding, it is never forwarded. */
  lemma InternalIsNeverForwarded(s: Service, verb: string, paths: seq<string>, proxy: Proxy)
    requires Respellings(paths) && paths != [] && Internal(paths[0])
    ensures !MayForward(s, verb, paths[|paths| - 1], proxy)
  {
    RespellingsKeepVerdict(paths);
  }

  /** A forwarded request goes to the target of the longest registered prefix of its path. */
  lemma ForwardedToLongest(s: Service, verb: string, path: string, proxy: Proxy, parses: string -> bool, prefix: string)
    requires InStep(s, parses) && AllParse(s, parses)
    requires MayForward(s, verb, path, proxy) && IsLongest(s.targets.Keys, path, prefix)
    ensures proxy.target == s.targets[prefix]
  {
    assert s.proxies.Keys == s.targets.Keys;
    LongestIsLongest(s.proxies.Keys, path, prefix);
  }
}
