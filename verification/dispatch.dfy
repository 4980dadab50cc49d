/**
  What a routed host is served with, and which host a request names.
 */
module Dispatch {
  import opened Wrappers
  import opened Text
  import opened Routes

  /** The handler behind the gates. */
  function Innermost(h: Handler): Handler {
    if h.Gated? then Innermost(h.inner) else h
  }

  /** A handler can be built exactly for a backend with scheme and host, and for a gated app only if there is a gate. */
  lemma BuildableExactly(r: Route, gate: bool)
    ensures HandlerFor(r, gate).Ready? <==>
      && r.settings.backend.text != "" && r.settings.backend.url.Some?
      && r.settings.backend.url.value.scheme != "" && r.settings.backend.url.value.host != ""
      && (r.settings.oidcGate ==> gate)
  {}

  /** An app that asks for the gate is served through it and no other is; either way the request reaches its backend. */
  lemma ServedAsConfigured(routes: seq<Route>, env: Env, host: string)
    requires NewRoute(routes, env, host).Some?
    ensures var h, w := NewRoute(routes, env, host).value, Winner(routes, env, host).value;
      && w in routes && w.host == host
      && (h.Gated? <==> w.settings.oidcGate)
      && Some(Innermost(h)) == (if w.settings.backend.url.None? then None else Some(
           Proxy(w.settings.backend.url.value, w.settings.preserveHost,
                 if w.settings.timeoutSec > 0 then Some(w.settings.timeoutSec) else None)))
  {
    WinnerWants(routes, env, host);
    hide Winner;
  }

  // --- the Host header ---

  lemma IndexIsLast(s: string, c: char, i: int)
    requires 0 <= i < |s| && s[i] == c && c !in s[i + 1..]
    ensures LastIndexOf(s, c) == i
  {
    assert forall k | i < k < |s| :: s[k] == s[i + 1..][k - i - 1] && s[k] in s[i + 1..];
  }

  lemma NoIndex(s: string, c: char)
    requires c !in s
    ensures LastIndexOf(s, c) == -1
  {}

  /** A port is stripped from a name, and from a text that begins with an address in brackets; letter case does not matter. */
  lemma PortIsStripped(host: string, port: string)
    requires ':' !in port && ']' !in port
    requires "[" <= host ==> ']' in host
    ensures StripPort(host + ":" + port) == host
    ensures ToLower(StripPort(ToLower(host + ":" + port))) == ToLower(host)
  {
    StripsPort(host, port);
    LowerKeeps(host, port);
    StripsPort(ToLower(host), ToLower(port));
    LowerWithPort(host, port);
    ToLowerTwice(host);
    hide *;
  }

  lemma LowerWithPort(host: string, port: string)
    ensures ToLower(host + ":" + port) == ToLower(host) + ":" + ToLower(port)
  {}

  lemma StripsPort(host: string, port: string)
    requires ':' !in port && ']' !in port
    requires "[" <= host ==> ']' in host
    ensures StripPort(host + ":" + port) == host
  {
    var s := host + ":" + port;
    assert s[|host| + 1..] == port;
    IndexIsLast(s, ':', |host|);
    assert s[..|host|] == host;
    assert s[0] == if host == "" then ':' else host[0];
    if HasPrefix(s, "[") {
      assert s[..1] == host[..1];
      var j :| 0 <= j < |host| && host[j] == ']';
      assert s[j] == ']';
      assert forall k | |host| < k < |s| :: s[k] == port[k - |host| - 1];
    }
  }

  lemma LowerKeeps(host: string, port: string)
    requires ':' !in port && ']' !in port
    requires "[" <= host ==> ']' in host
    ensures ':' !in ToLower(port) && ']' !in ToLower(port)
    ensures "[" <= ToLower(host) ==> ']' in ToLower(host)
  {
    LowerLacks(port, ':');
    LowerLacks(port, ']');
    var lower := ToLower(host);
    if "[" <= lower {
      assert host[0] == '[' by { assert lower[0] == lower[..1][0] == Lower(host[0]); }
      assert host[..1] == "[";
      var j :| 0 <= j < |host| && host[j] == ']';
      assert lower[j] == ']';
    }
  }

  lemma LowerLacks(s: string, c: char)
    requires c !in s && !('a' <= c <= 'z')
    ensures c !in ToLower(s)
  {
    forall i | 0 <= i < |s|
      ensures ToLower(s)[i] != c
    {
      assert s[i] in s;
    }
  }

  /** Without a port nothing is stripped; the colons of an address in brackets are not one, nor those after an open bracket. */
  lemma NothingToStrip(host: string)
    requires ':' !in host || ("[" <= host && (']' !in host || exists i :: 0 <= i < |host| && host[i] == ']' && ':' !in host[i..]))
    ensures StripPort(host) == host
  {
    if ':' !in host {
      NoIndex(host, ':');
    } else if ']' !in host {
      NoIndex(host, ']');
    } else {
      var i :| 0 <= i < |host| && host[i] == ']' && ':' !in host[i..];
      assert forall k | i <= k < |host| :: host[k] == host[i..][k - i];
    }
  }

  lemma SameIndex(a: string, b: string, c: char)
    requires SameButCase(a, b) && Lower(c) == c && (forall d | Lower(d) == c :: d == c)
    ensures LastIndexOf(a, c) == LastIndexOf(b, c)
  {
    forall i | 0 <= i < |a|
      ensures a[i] == c <==> b[i] == c
    {
      SameLetterExactly(a[i], b[i]);
    }
    hide Lower, SameLetter;
  }

  /** Host headers that differ only in letter case lead to the same entry. */
  lemma CaseIsIgnored(a: string, b: string)
    requires SameButCase(a, b)
    ensures ToLower(StripPort(a)) == ToLower(StripPort(b))
  {
    SameIndex(a, b, ':');
    SameIndex(a, b, ']');
    assert HasPrefix(a, "[") <==> HasPrefix(b, "[") by {
      assert a != "" ==> a[..1] == [a[0]] && b[..1] == [b[0]];
      if a != "" { SameLetterExactly(a[0], b[0]); }
    }
    hide SameLetter, Lower, ToLower, HasPrefix;
    SameLowerExactly(StripPort(a), StripPort(b));
  }

  /** A route serves its host in any letter case, with a port or without, until it is removed in any letter case. */
  method RoutedInAnyCase(server: Server, host: string, handler: Handler, asked: string, port: string)
    returns (withPort: Handler, without: Handler, removed: bool, after: Handler)
    requires SameButCase(host, asked) && ':' !in host && ':' !in asked && ':' !in port && ']' !in port && !("[" <= asked)
    modifies server
    ensures withPort == without == handler && removed && after == server.fallback == old(server.fallback)
  {
    hide SameButCase, ToLower, StripPort;
    SameLowerExactly(host, asked);
    PortIsStripped(asked, port);
    NothingToStrip(asked);
    NothingToStrip(host);
    server.AddRoute(host, handler);
    withPort := server.Dispatch(asked + ":" + port);
    without := server.Dispatch(asked);
    removed := server.RemoveRoute(asked);
    after := server.Dispatch(host);
  }
}
