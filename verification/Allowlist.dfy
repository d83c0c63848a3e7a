/** The proxy's allow decision: endpoint keys, their normalisation, and the target key. */
module Allowlist {
  import opened Text
  import opened Policy

  function EndpointKey(e: Endpoint): string {
    Lower(e.host) + ":" + ShowNat(e.port)
  }

  function AllowFromEndpoints(endpoints: seq<Endpoint>): set<string> {
    set i | 0 <= i < |endpoints| :: EndpointKey(endpoints[i])
  }

  function WithPort(key: string): string {
    if ':' in key then key else key + ":443"
  }

  function NormalizeEntry(s: string): string {
    WithPort(Lower(Trim(s)))
  }

  function NormalizeAllow(allow: set<string>): set<string> {
    set s | s in allow :: NormalizeEntry(s)
  }

  predicate IsAllowed(allow: set<string>, host: string, port: Port) {
    EndpointKey(Endpoint(host, port)) in allow
  }

  /** The key under which a CONNECT target is looked up. */
  function TargetKey(target: string): string {
    WithPort(Lower(target))
  }

  /** The set a running proxy holds for a policy's endpoints. */
  function ProxyAllow(endpoints: seq<Endpoint>): set<string> {
    NormalizeAllow(AllowFromEndpoints(endpoints))
  }

  // ---------- Keys are injective ----------

  lemma DigitsHaveNoColon(s: string)
    requires Digits(s)
    ensures ':' !in s
  {
    forall i | 0 <= i < |s|
      ensures s[i] != ':'
    {
      assert IsDigit(s[i]);
    }
  }

  lemma NoColonAfter(a: string, x: string)
    requires ':' !in x
    ensures var s := a + ":" + x;
            s[|a|] == ':' && forall k :: |a| < k < |s| ==> s[k] != ':'
  {
    var s := a + ":" + x;
    forall k | |a| < k < |s|
      ensures s[k] != ':'
    {
      assert s[k] == x[k - |a| - 1];
    }
  }

  /** The last colon of a key separates host and port, however many colons the host has. */
  lemma SplitAtLastColon(a: string, x: string, b: string, y: string)
    requires ':' !in x && ':' !in y
    requires a + ":" + x == b + ":" + y
    ensures a == b && x == y
  {
    var s, t := a + ":" + x, b + ":" + y;
    NoColonAfter(a, x);
    NoColonAfter(b, y);
    assert |a| == |b|;
    assert s[..|a|] == a && t[..|b|] == b;
    assert s[|a| + 1..] == x && t[|b| + 1..] == y;
  }

  lemma KeyInjective(e: Endpoint, f: Endpoint)
    ensures EndpointKey(e) == EndpointKey(f) <==> Lower(e.host) == Lower(f.host) && e.port == f.port
  {
    if EndpointKey(e) == EndpointKey(f) {
      DigitsHaveNoColon(ShowNat(e.port));
      DigitsHaveNoColon(ShowNat(f.port));
      SplitAtLastColon(Lower(e.host), ShowNat(e.port), Lower(f.host), ShowNat(f.port));
      ShowNatInjective(e.port, f.port);
    }
  }

  // ---------- Normalisation ----------

  lemma LowerKeepsWhitespace(c: char)
    ensures IsWhitespace(LowerChar(c)) == IsWhitespace(c)
  {
  }

  lemma {:induction false} TrimStartLower(s: string)
    ensures TrimStart(Lower(s)) == Lower(TrimStart(s))
  {
    if s != "" && IsWhitespace(s[0]) {
      LowerKeepsWhitespace(s[0]);
      assert Lower(s)[1..] == Lower(s[1..]);
      TrimStartLower(s[1..]);
    } else if s != "" {
      LowerKeepsWhitespace(s[0]);
    }
  }

  lemma {:induction false} TrimStartConcat(a: string, b: string)
    requires b != "" && !IsWhitespace(b[0])
    ensures TrimStart(a + b) == TrimStart(a) + b
  {
    if a == "" {
      assert a + b == b;
    } else if IsWhitespace(a[0]) {
      assert (a + b)[1..] == a[1..] + b;
      TrimStartConcat(a[1..], b);
    } else {
      assert (a + b)[0] == a[0];
    }
  }

  /** What normalisation does to an endpoint's key: white space in front of the host goes. */
  lemma NormalizedKey(e: Endpoint)
    ensures NormalizeEntry(EndpointKey(e)) == EndpointKey(e.(host := TrimStart(e.host)))
  {
    var port := ShowNat(e.port);
    var head := Lower(TrimStart(e.host));
    KeyTrims(e.host, port);
    LowerIdempotent(TrimStart(e.host));
    LowerOfKey(head, port);
    assert (head + ":" + port)[|head|] == ':';
  }

  lemma ConcatAssociates(a: string, b: string, c: string)
    ensures a + b + c == a + (b + c)
  {
  }

  lemma ColonIsNotWhitespace()
    ensures !IsWhitespace(':')
  {
  }

  lemma KeyTrims(host: string, port: string)
    requires port != "" && Digits(port)
    ensures Trim(Lower(host) + ":" + port) == Lower(TrimStart(host)) + ":" + port
  {
    hide Lower, TrimStart, TrimEnd, IsWhitespace;
    var tail := ":" + port;
    var key := Lower(TrimStart(host)) + tail;
    ConcatAssociates(Lower(host), ":", port);
    ConcatAssociates(Lower(TrimStart(host)), ":", port);
    ColonIsNotWhitespace();
    TrimStartConcat(Lower(host), tail);
    TrimStartLower(host);
    assert IsDigit(port[|port| - 1]) && key[|key| - 1] == port[|port| - 1];
    DigitsAreNotWhitespace(key[|key| - 1]);
    TrimEndKept(key);
  }

  lemma LowerOfKey(head: string, port: string)
    requires Digits(port)
    ensures Lower(head + ":" + port) == Lower(head) + ":" + port
  {
    LowerConcat(head + ":", port);
    LowerConcat(head, ":");
    assert Lower(":") == ":";
    DigitsAreLower(port);
  }

  predicate StartsBlank(host: string) {
    host != "" && IsWhitespace(host[0])
  }

  /** It is the identity on the key of an endpoint if and only if the host does not start with white space. */
  lemma NormalizedKeyKept(e: Endpoint)
    ensures NormalizeEntry(EndpointKey(e)) == EndpointKey(e) <==>
            !StartsBlank(e.host)
  {
    NormalizedKey(e);
    if StartsBlank(e.host) {
      assert |EndpointKey(e.(host := TrimStart(e.host)))| < |EndpointKey(e)|;
    }
  }

  lemma {:induction false} TrimEndKeepsFirst(s: string)
    ensures TrimEnd(s) != "" ==> s != "" && TrimEnd(s)[0] == s[0]
  {
    if s != "" && IsWhitespace(s[|s| - 1]) {
      TrimEndKeepsFirst(s[..|s| - 1]);
    }
  }

  lemma Trimmed(s: string)
    requires s != "" ==> !IsWhitespace(s[0]) && !IsWhitespace(s[|s| - 1])
    ensures Trim(s) == s
  {
    TrimUnique("", s, "");
    assert "" + s + "" == s;
  }

  lemma NormalizeEntryTwice(s: string)
    ensures NormalizeEntry(NormalizeEntry(s)) == NormalizeEntry(s)
  {
    var t := Trim(s);
    TrimEndKeepsFirst(TrimStart(s));
    var key := Lower(t);
    if t != "" {
      LowerKeepsWhitespace(t[0]);
      LowerKeepsWhitespace(t[|t| - 1]);
    }
    LowerIdempotent(t);
    hide Trim;
    WithPortStable(key);
  }

  lemma WithPortStable(key: string)
    requires Lower(key) == key
    requires key != "" ==> !IsWhitespace(key[0]) && !IsWhitespace(key[|key| - 1])
    ensures NormalizeEntry(WithPort(key)) == WithPort(key)
  {
    hide Lower, Trim;
    if ':' in key {
      Trimmed(key);
    } else {
      var entry := key + ":443";
      assert entry[|key|] == ':' && entry[|entry| - 1] == '3';
      assert key != "" ==> entry[0] == key[0];
      Trimmed(entry);
      assert Digits("443");
      LowerOfKey(key, "443");
      assert key + ":" + "443" == entry;
    }
  }

  /** Normalising an allow set again changes nothing. */
  lemma NormalizeAllowTwice(allow: set<string>)
    ensures NormalizeAllow(NormalizeAllow(allow)) == NormalizeAllow(allow)
  {
    forall s | s in allow
      ensures NormalizeEntry(NormalizeEntry(s)) == NormalizeEntry(s)
    {
      NormalizeEntryTwice(s);
    }
    forall k | k in NormalizeAllow(allow)
      ensures k in NormalizeAllow(NormalizeAllow(allow))
    {
      var s :| s in allow && k == NormalizeEntry(s);
      assert NormalizeEntry(k) == k;
    }
  }

  // ---------- The decision ----------

  predicate Listed(endpoints: seq<Endpoint>, host: string, port: Port) {
    exists i :: 0 <= i < |endpoints| &&
      Lower(TrimStart(endpoints[i].host)) == Lower(host) && endpoints[i].port == port
  }

  /** The proxy's set holds exactly the keys of the endpoints with leading white space removed. */
  lemma ProxyAllowHas(endpoints: seq<Endpoint>, host: string, port: Port)
    ensures EndpointKey(Endpoint(host, port)) in ProxyAllow(endpoints) <==> Listed(endpoints, host, port)
  {
    var key := EndpointKey(Endpoint(host, port));
    forall i | 0 <= i < |endpoints|
      ensures NormalizeEntry(EndpointKey(endpoints[i])) == key <==>
              Lower(TrimStart(endpoints[i].host)) == Lower(host) && endpoints[i].port == port
      ensures NormalizeEntry(EndpointKey(endpoints[i])) in ProxyAllow(endpoints)
    {
      NormalizedKey(endpoints[i]);
      KeyInjective(endpoints[i].(host := TrimStart(endpoints[i].host)), Endpoint(host, port));
      assert EndpointKey(endpoints[i]) in AllowFromEndpoints(endpoints);
    }
    if key in ProxyAllow(endpoints) {
      var s :| s in AllowFromEndpoints(endpoints) && key == NormalizeEntry(s);
      var i :| 0 <= i < |endpoints| && s == EndpointKey(endpoints[i]);
      assert Listed(endpoints, host, port);
    }
  }

  /** A target with a port is accepted if and only if that host and port are listed. */
  lemma TargetWithPort(endpoints: seq<Endpoint>, host: string, port: Port)
    ensures TargetKey(host + ":" + ShowNat(port)) in ProxyAllow(endpoints) <==> Listed(endpoints, host, port)
  {
    var target := host + ":" + ShowNat(port);
    KeyOfTarget(host, ShowNat(port));
    assert TargetKey(target) == EndpointKey(Endpoint(host, port));
    ProxyAllowHas(endpoints, host, port);
  }

  lemma KeyOfTarget(host: string, digits: string)
    requires Digits(digits)
    ensures TargetKey(host + ":" + digits) == Lower(host) + ":" + digits
  {
    LowerOfKey(host, digits);
    assert (Lower(host) + ":" + digits)[|host|] == ':';
  }

  /** A target without a colon stands for port 443. */
  lemma TargetWithoutPort(endpoints: seq<Endpoint>, host: string)
    requires ':' !in host
    ensures TargetKey(host) in ProxyAllow(endpoints) <==> Listed(endpoints, host, 443)
  {
    LowerHasNoColon(host);
    assert ShowNat(443) == "443" by {
      assert ShowNat(44) == ShowNat(4) + ['4'];
      assert ShowNat(4) == ['4'];
    }
    assert TargetKey(host) == EndpointKey(Endpoint(host, 443));
    ProxyAllowHas(endpoints, host, 443);
  }

  lemma LowerHasNoColon(s: string)
    requires ':' !in s
    ensures ':' !in Lower(s)
  {
    forall i | 0 <= i < |s|
      ensures Lower(s)[i] != ':'
    {
      assert s[i] in s;
    }
  }

  /** Any other target, whose text after the last colon is no port, is never accepted. */
  lemma TargetWithBadPort(endpoints: seq<Endpoint>, host: string, port: string)
    requires ':' !in port
    requires forall n: Port :: Lower(port) != ShowNat(n)
    ensures TargetKey(host + ":" + port) !in ProxyAllow(endpoints)
  {
    var target := host + ":" + port;
    LowerConcat(host + ":", port);
    LowerConcat(host, ":");
    assert Lower(":") == ":";
    var key := Lower(host) + ":" + Lower(port);
    assert key[|host|] == ':' && TargetKey(target) == key;
    LowerHasNoColon(port);
    forall s | s in AllowFromEndpoints(endpoints)
      ensures NormalizeEntry(s) != key
    {
      var i :| 0 <= i < |endpoints| && s == EndpointKey(endpoints[i]);
      var e := endpoints[i].(host := TrimStart(endpoints[i].host));
      NormalizedKey(endpoints[i]);
      DigitsHaveNoColon(ShowNat(e.port));
      if EndpointKey(e) == key {
        SplitAtLastColon(Lower(e.host), ShowNat(e.port), Lower(host), Lower(port));
      }
    }
  }

  /** The dry-run check compares hosts as they are written, white space included. */
  lemma DryRunHas(endpoints: seq<Endpoint>, host: string, port: Port)
    ensures IsAllowed(AllowFromEndpoints(endpoints), host, port) <==>
            exists i :: 0 <= i < |endpoints| && Lower(endpoints[i].host) == Lower(host) && endpoints[i].port == port
  {
    var key := EndpointKey(Endpoint(host, port));
    forall i | 0 <= i < |endpoints|
      ensures EndpointKey(endpoints[i]) == key <==>
              Lower(endpoints[i].host) == Lower(host) && endpoints[i].port == port
      ensures EndpointKey(endpoints[i]) in AllowFromEndpoints(endpoints)
    {
      KeyInjective(endpoints[i], Endpoint(host, port));
    }
  }

  predicate DryRunIsProxy(endpoints: seq<Endpoint>, host: string, port: Port) {
    IsAllowed(AllowFromEndpoints(endpoints), host, port) <==>
    TargetKey(host + ":" + ShowNat(port)) in ProxyAllow(endpoints)
  }

  /** A listed host that a request can name once its leading white space is removed. */
  predicate TrimsToWord(host: string) {
    StartsBlank(host) && NoWhitespace(TrimStart(host))
  }

  predicate ListedAs(endpoints: seq<Endpoint>, host: string, port: Port) {
    exists j :: 0 <= j < |endpoints| && Lower(endpoints[j].host) == Lower(host) && endpoints[j].port == port
  }

  lemma {:induction false} TrimStartOfWord(s: string)
    requires NoWhitespace(s)
    ensures TrimStart(s) == s
  {
  }

  lemma LowerKeepsNoWhitespace(s: string)
    ensures NoWhitespace(Lower(s)) <==> NoWhitespace(s)
  {
    forall i | 0 <= i < |s|
      ensures IsWhitespace(Lower(s)[i]) == IsWhitespace(s[i])
    {
      LowerKeepsWhitespace(s[i]);
    }
    hide IsWhitespace;
  }

  /** On a host that a request can name, the two differ just where a trimmed host is listed and the host is not. */
  lemma DryRunMisses(endpoints: seq<Endpoint>, host: string, port: Port)
    requires NoWhitespace(host)
    ensures DryRunIsProxy(endpoints, host, port) <==>
            (Listed(endpoints, host, port) ==> ListedAs(endpoints, host, port))
  {
    DryRunHas(endpoints, host, port);
    TargetWithPort(endpoints, host, port);
    hide IsAllowed, TargetKey, ProxyAllow, Lower;
    LowerKeepsNoWhitespace(host);
    forall i | 0 <= i < |endpoints| && Lower(endpoints[i].host) == Lower(host)
      ensures TrimStart(endpoints[i].host) == endpoints[i].host
    {
      LowerKeepsNoWhitespace(endpoints[i].host);
      TrimStartOfWord(endpoints[i].host);
    }
  }

  /**
   The dry-run check gives the proxy's answer for every host that a request can name and every
   port, if and only if each host that is listed behind white space is also listed without it.
   */
  lemma DryRunAgrees(endpoints: seq<Endpoint>)
    ensures (forall host, port :: NoWhitespace(host) ==> DryRunIsProxy(endpoints, host, port)) <==>
            (forall i :: 0 <= i < |endpoints| && TrimsToWord(endpoints[i].host) ==>
               ListedAs(endpoints, TrimStart(endpoints[i].host), endpoints[i].port))
  {
    hide DryRunIsProxy, ListedAs;
    if forall host, port :: NoWhitespace(host) ==> DryRunIsProxy(endpoints, host, port) {
      forall i | 0 <= i < |endpoints| && TrimsToWord(endpoints[i].host)
        ensures ListedAs(endpoints, TrimStart(endpoints[i].host), endpoints[i].port)
      {
        var e := endpoints[i];
        assert DryRunIsProxy(endpoints, TrimStart(e.host), e.port);
        DryRunMisses(endpoints, TrimStart(e.host), e.port);
        assert Listed(endpoints, TrimStart(e.host), e.port);
      }
    }
    if forall i :: 0 <= i < |endpoints| && TrimsToWord(endpoints[i].host) ==>
         ListedAs(endpoints, TrimStart(endpoints[i].host), endpoints[i].port) {
      forall host, port: Port | NoWhitespace(host)
        ensures DryRunIsProxy(endpoints, host, port)
      {
        TrimmedAreListed(endpoints, host, port);
        DryRunMisses(endpoints, host, port);
      }
    }
  }

  lemma TrimmedAreListed(endpoints: seq<Endpoint>, host: string, port: Port)
    requires NoWhitespace(host)
    requires forall i :: 0 <= i < |endpoints| && TrimsToWord(endpoints[i].host) ==>
               ListedAs(endpoints, TrimStart(endpoints[i].host), endpoints[i].port)
    ensures Listed(endpoints, host, port) ==> ListedAs(endpoints, host, port)
  {
    if Listed(endpoints, host, port) {
      var i :| 0 <= i < |endpoints| &&
        Lower(TrimStart(endpoints[i].host)) == Lower(host) && endpoints[i].port == port;
      LowerKeepsNoWhitespace(host);
      LowerKeepsNoWhitespace(TrimStart(endpoints[i].host));
      hide Lower, NoWhitespace, IsWhitespace;
      if StartsBlank(endpoints[i].host) {
        assert TrimsToWord(endpoints[i].host);
      } else {
        assert TrimStart(endpoints[i].host) == endpoints[i].host;
      }
    }
  }

  /** A list for which they differ: its one host stands behind a blank. */
  lemma DryRunMissesHost()
    ensures var endpoints := [Endpoint(" h", 443)];
            && !IsAllowed(AllowFromEndpoints(endpoints), "h", 443)
            && TargetKey("h" + ":" + ShowNat(443)) in ProxyAllow(endpoints)
  {
    var endpoints := [Endpoint(" h", 443)];
    DryRunHas(endpoints, "h", 443);
    TargetWithPort(endpoints, "h", 443);
    hide IsAllowed, TargetKey, ProxyAllow, ShowNat;
    assert TrimStart(" h") == "h" by {
      assert " h"[1..] == "h";
    }
    assert Lower(TrimStart(endpoints[0].host)) == Lower("h");
    assert |Lower(" h")| != |Lower("h")|;
  }
}
