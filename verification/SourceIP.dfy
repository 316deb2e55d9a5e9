/**
 Rewriting of the source-address headers before a request is proxied. Header operations
 bring the name they are given into canonical form, the form the HTTP server delivers.
 */
module SourceIP {
  import opened Text

  type Header = map<string, seq<string>>

  const FORWARDED := "X-Forwarded-For"
  const REAL_IP := "X-Real-IP"

  /** The key a real address is delivered under; not the name the handler deletes it by. */
  const REAL_IP_KEY := "X-Real-Ip"

  function UpperChar(c: char): char {
    if 'a' <= c <= 'z' then c - 'a' + 'A' else c
  }

  /** `http.CanonicalHeaderKey`: a capital at the start and after each hyphen, small letters elsewhere. */
  function CanonicalKey(name: string): (r: string)
    ensures |r| == |name|
  {
    seq(|name|, i requires 0 <= i < |name| =>
      if i == 0 || name[i - 1] == '-' then UpperChar(name[i]) else LowerChar(name[i]))
  }

  lemma CanonicalNames()
    ensures CanonicalKey(FORWARDED) == FORWARDED && CanonicalKey(REAL_IP) == REAL_IP_KEY
  {
  }

  lemma CanonicalIgnoresCase(a: string, b: string)
    requires Lower(a) == Lower(b)
    ensures CanonicalKey(a) == CanonicalKey(b)
  {
    forall i | 0 <= i < |a| ensures CanonicalKey(a)[i] == CanonicalKey(b)[i] {
      assert LowerChar(a[i]) == Lower(a)[i] == Lower(b)[i] == LowerChar(b[i]);
      if i > 0 {
        assert LowerChar(a[i - 1]) == Lower(a)[i - 1] == Lower(b)[i - 1] == LowerChar(b[i - 1]);
      }
    }
  }

  /** A header as the server delivers it: every key is in canonical form. */
  ghost predicate Delivered(h: Header) {
    forall k | k in h :: CanonicalKey(k) == k
  }

  /** `Header.Get`: the first value, or the empty string. */
  function Get(h: Header, name: string): string {
    var key := CanonicalKey(name);
    if key in h && h[key] != [] then h[key][0] else ""
  }

  /** `Header.Del` */
  function Del(h: Header, name: string): Header {
    h - {CanonicalKey(name)}
  }

  /** `Header.Add` */
  function Add(h: Header, name: string, value: string): Header {
    var key := CanonicalKey(name);
    h[key := (if key in h then h[key] else []) + [value]]
  }

  /** `strings.LastIndex` for one byte, -1 when absent. */
  function LastIndex(s: string, c: char): (i: int)
    ensures -1 <= i < |s|
    ensures i >= 0 ==> s[i] == c && c !in s[i + 1..]
    ensures i == -1 <==> c !in s
  {
    if s == "" then -1
    else if s[|s| - 1] == c then |s| - 1
    else
      var i := LastIndex(s[..|s| - 1], c);
      assert s == s[..|s| - 1] + [s[|s| - 1]];
      i
  }

  /** The peer's host text: everything before the last colon, brackets included. */
  function RemoteHost(remoteAddr: string): string
    requires ':' in remoteAddr
  {
    remoteAddr[..LastIndex(remoteAddr, ':')]
  }

  /** The peers whose forwarded address is believed. */
  predicate TrustedPeer(remoteAddr: string)
    requires ':' in remoteAddr
  {
    RemoteHost(remoteAddr) in {"127.0.0.1", "::1"}
  }

  /** The text after the last comma. */
  ghost predicate IsLastHop(list: string, hop: string) {
    ',' !in hop && (list == hop || exists earlier :: list == earlier + "," + hop)
  }

  /** The client named some address: the header's first value is not empty. */
  predicate HasList(h: Header) {
    FORWARDED in h && h[FORWARDED] != [] && h[FORWARDED][0] != ""
  }

  /**
   The header the proxied request must carry: the last hop of the first forwarded-for value if the
   peer is trusted and there is one, no real address, and otherwise what came.
   */
  ghost predicate Rewritten(before: Header, remoteAddr: string, after: Header)
    requires ':' in remoteAddr
  {
    && REAL_IP_KEY !in after
    && (FORWARDED in after <==> TrustedPeer(remoteAddr) && HasList(before))
    && (FORWARDED in after ==> |after[FORWARDED]| == 1 && IsLastHop(before[FORWARDED][0], after[FORWARDED][0]))
    && before - {FORWARDED, REAL_IP_KEY} == after - {FORWARDED, REAL_IP_KEY}
  }

  /** The last of the pieces between commas is the text after the last comma. */
  lemma {:induction false} LastPiece(list: string)
    ensures var pieces := Split(list, ','); IsLastHop(list, pieces[|pieces| - 1])
  {
    if ',' in list {
      var i := LastIndex(list, ',');
      var earlier, hop := list[..i], list[i + 1..];
      assert list == earlier + [','] + hop;
      SplitAtSeparator(earlier, hop, ',');
      SplitWithoutSeparator(hop, ',');
      assert list == earlier + "," + hop;
    } else {
      SplitWithoutSeparator(list, ',');
    }
  }

  lemma LastHopIsUnique(list: string, hop: string)
    requires IsLastHop(list, hop)
    ensures hop == list[LastIndex(list, ',') + 1..]
  {
    if list != hop {
      var earlier :| list == earlier + "," + hop;
      assert list[|earlier|] == ',' && list[|earlier| + 1..] == hop;
      assert LastIndex(list, ',') == |earlier|;
    }
  }

  class Request {
    const verb: string
    const path: string
    const remoteAddr: string
    var header: Header

    constructor (verb: string, path: string, remoteAddr: string, header: Header)
      ensures this.verb == verb && this.path == path && this.remoteAddr == remoteAddr && this.header == header
    {
      this.verb, this.path, this.remoteAddr, this.header := verb, path, remoteAddr, header;
    }

    /** The server always delivers a peer address of the form host:port. */
    method RewriteSourceIP()
      requires ':' in remoteAddr
      modifies this
      ensures Rewritten(old(header), remoteAddr, header)
    {
      CanonicalNames();
      var ipList: seq<string> := [];
      var list := Get(header, FORWARDED);
      if list != "" {
        ipList := Split(list, ',');
        LastPiece(list);
        if |ipList| == 1 && ipList[0] == "" {
          ipList := [];
        }
      }
      header := Del(header, FORWARDED);
      header := Del(header, REAL_IP);
      var remoteIP := remoteAddr[..LastIndex(remoteAddr, ':')];
      if |ipList| > 0 && (remoteIP == "127.0.0.1" || remoteIP == "::1") {
        header := Add(header, FORWARDED, ipList[|ipList| - 1]);
      }
    }
  }

  /**
   No spelling of the real-address header survives, and no spelling of the forwarded one but
   the single hop put there: upstreams compare header names without regard to case.
   */
  lemma NoSpellingSurvives(before: Header, remoteAddr: string, after: Header, name: string)
    requires ':' in remoteAddr && Delivered(before) && Rewritten(before, remoteAddr, after) && name in after
    ensures Lower(name) != Lower(REAL_IP)
    ensures Lower(name) == Lower(FORWARDED) ==> name == FORWARDED && |after[name]| == 1
  {
    CanonicalNames();
    if name != FORWARDED {
      assert name in after - {FORWARDED, REAL_IP_KEY};
      assert name in before && CanonicalKey(name) == name;
      if Lower(name) == Lower(REAL_IP) {
        CanonicalIgnoresCase(name, REAL_IP);
      }
      if Lower(name) == Lower(FORWARDED) {
        CanonicalIgnoresCase(name, FORWARDED);
      }
    } else {
      assert Lower(FORWARDED)[2] != Lower(REAL_IP)[2];
    }
  }

  lemma HeaderByParts(h: Header)
    requires REAL_IP_KEY !in h
    ensures h == (h - {FORWARDED, REAL_IP_KEY}) + (if FORWARDED in h then map[FORWARDED := h[FORWARDED]] else map[])
  {
  }

  /** With this list of hops, the one forwarded is the last, whatever further values there are. */
  lemma ForwardedHop(before: Header, after: Header, remoteAddr: string,
                     injected: string, hop: string, more: seq<string>)
    requires ':' in remoteAddr && ',' !in hop
    requires FORWARDED in before && before[FORWARDED] == [injected + "," + hop] + more
    requires Rewritten(before, remoteAddr, after)
    ensures FORWARDED in after <==> TrustedPeer(remoteAddr)
    ensures FORWARDED in after ==> after[FORWARDED] == [hop]
  {
    var list := before[FORWARDED][0];
    assert list == injected + "," + hop && list[|injected|] == ',';
    if FORWARDED in after {
      assert IsLastHop(list, hop);
      LastHopIsUnique(list, after[FORWARDED][0]);
      LastHopIsUnique(list, hop);
    }
  }

  /** A single address is forwarded as it is. */
  lemma SingleHopIsForwarded(before: Header, after: Header, remoteAddr: string, hop: string, more: seq<string>)
    requires ':' in remoteAddr && ',' !in hop && hop != ""
    requires FORWARDED in before && before[FORWARDED] == [hop] + more
    requires Rewritten(before, remoteAddr, after)
    ensures FORWARDED in after <==> TrustedPeer(remoteAddr)
    ensures FORWARDED in after ==> after[FORWARDED] == [hop]
  {
    assert before[FORWARDED][0] == hop;
    if FORWARDED in after {
      LastHopIsUnique(hop, after[FORWARDED][0]);
      LastHopIsUnique(hop, hop);
    }
  }

  /** What a client writes ahead of its proxy's entry has no effect. */
  lemma InjectedHopsAreIgnored(
    h1: Header, h2: Header, out1: Header, out2: Header, injected1: string, injected2: string,
    hop: string, more1: seq<string>, more2: seq<string>, remoteAddr: string)
    requires ':' in remoteAddr && ',' !in hop
    requires FORWARDED in h1 && h1[FORWARDED] == [injected1 + "," + hop] + more1
    requires FORWARDED in h2 && h2[FORWARDED] == [injected2 + "," + hop] + more2
    requires h1 - {FORWARDED, REAL_IP_KEY} == h2 - {FORWARDED, REAL_IP_KEY}
    requires Rewritten(h1, remoteAddr, out1) && Rewritten(h2, remoteAddr, out2)
    ensures out1 == out2
    ensures FORWARDED in out1 ==> out1[FORWARDED] == [hop]
  {
    ForwardedHop(h1, out1, remoteAddr, injected1, hop, more1);
    ForwardedHop(h2, out2, remoteAddr, injected2, hop, more2);
    HeaderByParts(out1);
    HeaderByParts(out2);
  }

  /** How the server prints a peer: a host containing a colon, as every IPv6 address does, in brackets. */
  function PrintedPeer(host: string, port: string): string {
    if ':' in host then "[" + host + "]:" + port else host + ":" + port
  }

  lemma HostOfPeer(host: string, port: string)
    requires ':' !in port
    ensures ':' in host + ":" + port && RemoteHost(host + ":" + port) == host
  {
    var addr := host + ":" + port;
    assert addr[|host|] == ':' && addr[|host| + 1..] == port;
    assert LastIndex(addr, ':') == |host|;
  }

  /** A peer text is trusted exactly when the text before its port is one of the two loopback spellings. */
  lemma TrustedExactly(host: string, port: string)
    requires ':' !in port
    ensures TrustedPeer(host + ":" + port) <==> host == "127.0.0.1" || host == "::1"
  {
    HostOfPeer(host, port);
  }

  /** So of the peers as printed only the IPv4 loopback is trusted: with its brackets "::1" never is. */
  lemma PrintedPeersTrustedExactly(host: string, port: string)
    requires ':' !in port
    ensures ':' in PrintedPeer(host, port)
    ensures TrustedPeer(PrintedPeer(host, port)) <==> host == "127.0.0.1"
  {
    if ':' in host {
      var bracketed := "[" + host + "]";
      assert bracketed + ":" + port == PrintedPeer(host, port);
      HostOfPeer(bracketed, port);
      assert bracketed[0] == '[';
    } else {
      HostOfPeer(host, port);
      assert "::1"[0] == ':';
    }
  }
}
