/** The gate in front of the HTTP handlers (internal/limiter/middleware.go).

    A request is identified by its API_KEY header when it carries one ("token:" + key),
    and otherwise by its client address ("ip:" + address), taken from the first entry of
    X-Forwarded-For when that header is present, else from the host part of the peer
    address. A denied request is answered with Allow's status and message; an admitted
    one goes on, unchanged, to the next handler. Header values are strings; an absent
    header reads as "". */
module Middleware {
  import opened Store
  import opened MemoryStore
  import opened Limiter

  datatype Request = Request(apiKey: string, remoteAddr: string, forwardedFor: string)

  /** The backend key of a request and whether it is credentialed. */
  datatype Identity = Identity(key: string, isToken: bool)

  /** What the gate does with a request: answer it with an error, or hand it on. */
  datatype GateOutcome = Deny(status: int, message: string) | PassThrough(request: Request)

  const TokenPrefix: string := "token:"
  const AddressPrefix: string := "ip:"

  // ---------------------------------------------------------------------------
  // String helpers: the parts of Go's strings and net packages that the gate uses

  /** White space in the sense of Go's unicode.IsSpace. */
  predicate IsSpace(c: char)
  {
    || c == ' ' || c == '\t' || c == '\n' || c == '\r' || c == '\U{000B}' || c == '\U{000C}'
    || c == '\U{0085}' || c == '\U{00A0}' || c == '\U{1680}' || ('\U{2000}' <= c <= '\U{200A}')
    || c == '\U{2028}' || c == '\U{2029}' || c == '\U{202F}' || c == '\U{205F}' || c == '\U{3000}'
  }

  /** Drops the leading white space. */
  function TrimLeft(s: string): (r: string)
    ensures |r| <= |s| && r == s[|s| - |r|..]
    ensures forall i :: 0 <= i < |s| - |r| ==> IsSpace(s[i])
    ensures r == [] || !IsSpace(r[0])
    decreases |s|
  {
    if s != [] && IsSpace(s[0]) then TrimLeft(s[1..]) else s
  }

  /** Drops the trailing white space. */
  function TrimRight(s: string): (r: string)
    ensures |r| <= |s| && r == s[..|r|]
    ensures forall i :: |r| <= i < |s| ==> IsSpace(s[i])
    ensures r == [] || !IsSpace(r[|r| - 1])
    decreases |s|
  {
    if s != [] && IsSpace(s[|s| - 1]) then TrimRight(s[..|s| - 1]) else s
  }

  /** strings.TrimSpace: the input without white space at either end. */
  function TrimSpace(s: string): (r: string)
    ensures |r| <= |s|
    ensures r == [] || (!IsSpace(r[0]) && !IsSpace(r[|r| - 1]))
    ensures s == [] || (!IsSpace(s[0]) && !IsSpace(s[|s| - 1])) ==> r == s
    ensures forall i :: 0 <= i < |s| && !IsSpace(s[i]) ==> r != []
    ensures exists a, b :: (0 <= a <= b <= |s| && r == s[a..b]
      && (forall i :: 0 <= i < a ==> IsSpace(s[i])) && (forall i :: b <= i < |s| ==> IsSpace(s[i])))
  {
    var left := TrimLeft(s);
    var r := TrimRight(left);
    var a := |s| - |left|;
    assert r == s[a..a + |r|];
    r
  }

  /** strings.Split(s, ",")[0]: everything before the first comma, or all of s. */
  function FirstField(s: string): (r: string)
    ensures |r| <= |s| && r == s[..|r|]
    ensures ',' !in r
    ensures |r| < |s| ==> s[|r|] == ','
    decreases |s|
  {
    if s == [] || s[0] == ',' then [] else [s[0]] + FirstField(s[1..])
  }

  /** Position of the first `c` in s, or -1. */
  function IndexOf(s: string, c: char): (i: int)
    ensures -1 <= i < |s|
    ensures i >= 0 ==> s[i] == c
    ensures forall k :: 0 <= k < |s| && (i < 0 || k < i) ==> s[k] != c
    decreases |s|
  {
    if s == [] then -1
    else if s[0] == c then 0
    else var j := IndexOf(s[1..], c); if j < 0 then -1 else j + 1
  }

  /** Position of the last `c` in s, or -1. */
  function LastIndexOf(s: string, c: char): (i: int)
    ensures -1 <= i < |s|
    ensures i >= 0 ==> s[i] == c
    ensures forall k :: i < k < |s| ==> s[k] != c
    decreases |s|
  {
    if s == [] then -1
    else if s[|s| - 1] == c then |s| - 1
    else LastIndexOf(s[..|s| - 1], c)
  }

  /** The host part of net.SplitHostPort(hostport), or None where it reports an error:
      the port follows the last colon; a host holding colons must be bracketed, and a
      bracket anywhere else is an error. */
  function SplitHost(hostport: string): Option<string>
  {
    var i := LastIndexOf(hostport, ':');
    if i < 0 then None
    else if hostport[0] == '[' then
      var end := IndexOf(hostport, ']');
      if end < 0 || end + 1 != i then None
      else if '[' in hostport[1..] || ']' in hostport[end + 1..] then None
      else Some(hostport[1..end])
    else
      var host := hostport[..i];
      if ':' in host || '[' in hostport || ']' in hostport then None
      else Some(host)
  }

  /** net.JoinHostPort: how a peer address is written, brackets around a host with colons. */
  function JoinHostPort(host: string, port: string): string
  {
    if ':' in host then "[" + host + "]:" + port else host + ":" + port
  }

  // ---------------------------------------------------------------------------
  // Classification and the gate

  /** The client address of an anonymous request. */
  function ClientAddress(remoteAddr: string, forwardedFor: string): (ip: string)
    ensures forwardedFor != "" ==> ip == TrimSpace(FirstField(forwardedFor))
    ensures forwardedFor != "" ==> ',' !in ip && (ip == [] || (!IsSpace(ip[0]) && !IsSpace(ip[|ip| - 1])))
    ensures forwardedFor == "" && SplitHost(remoteAddr).None? ==> ip == remoteAddr
    ensures forwardedFor == "" && SplitHost(remoteAddr).Some? ==> ip == SplitHost(remoteAddr).value
  {
    if forwardedFor != "" then
      TrimSpace(FirstField(forwardedFor))
    else
      match SplitHost(remoteAddr)
      case Some(host) => host
      case None => remoteAddr
  }

  /** The key and credential class of a request. */
  function Classify(req: Request): (id: Identity)
    ensures id.isToken <==> req.apiKey != ""
    ensures id.isToken ==> id.key == TokenPrefix + req.apiKey
    ensures !id.isToken ==> id.key == AddressPrefix + ClientAddress(req.remoteAddr, req.forwardedFor)
  {
    if req.apiKey != "" then Identity(TokenPrefix + req.apiKey, true)
    else Identity(AddressPrefix + ClientAddress(req.remoteAddr, req.forwardedFor), false)
  }

  /** The gate's answer once Allow has decided. */
  function Gate(req: Request, d: Decision): (o: GateOutcome)
    ensures o.PassThrough? <==> d.allowed
    ensures o.Deny? ==> o.status == d.status && o.message == d.message
    ensures o.PassThrough? ==> o.request == req
  {
    if !d.allowed then Deny(d.status, d.message) else PassThrough(req)
  }

  /** One request through the gate: classify it, ask the limiter, answer or hand on. */
  method Handle(limiter: RateLimiter, req: Request, now: int) returns (o: GateOutcome)
    requires Valid(limiter.store.State())
    modifies limiter.store
    ensures Valid(limiter.store.State())
    ensures var id := Classify(req);
      var (t, d) := AllowStep(old(limiter.store.State()), limiter.store.failOnCall, limiter.cfg, id.key, id.isToken, now);
      limiter.store.State() == t && o == Gate(req, d)
  {
    var id := Classify(req);
    var allowed := limiter.Allow(id.key, id.isToken, now);
    if !allowed.allowed {
      return Deny(allowed.status, allowed.message);
    }
    return PassThrough(req);
  }

  // ---------------------------------------------------------------------------
  // Properties

  /** Credentialed and anonymous requests never share a backend key. */
  lemma ClassesNeverShareKey(a: Request, b: Request)
    requires a.apiKey != "" && b.apiKey == ""
    ensures Classify(a).key != Classify(b).key
  {
    assert Classify(a).key[0] == 't' && Classify(b).key[0] == 'i';
  }

  /** Within one class, two requests share a backend key exactly when they carry the same
      API key, or the same client address. */
  lemma {:induction false} SameClassKeysInjective(a: Request, b: Request)
    requires (a.apiKey == "") == (b.apiKey == "")
    ensures a.apiKey != "" ==> (Classify(a).key == Classify(b).key <==> a.apiKey == b.apiKey)
    ensures a.apiKey == "" ==>
      (Classify(a).key == Classify(b).key <==>
        ClientAddress(a.remoteAddr, a.forwardedFor) == ClientAddress(b.remoteAddr, b.forwardedFor))
  {
    var ka, kb := Classify(a).key, Classify(b).key;
    var p := if a.apiKey != "" then TokenPrefix else AddressPrefix;
    if ka == kb {
      assert ka[|p|..] == kb[|p|..];
    }
  }

  /** A credentialed request's key ignores the forwarded-for header and the peer address. */
  lemma TokenKeyIgnoresAddresses(req: Request, remoteAddr: string, forwardedFor: string)
    requires req.apiKey != ""
    ensures Classify(Request(req.apiKey, remoteAddr, forwardedFor)) == Classify(req)
  {
  }

  /** A peer address written as host:port yields its host, bracketed or not. */
  lemma {:induction false} SplitHostOfJoin(host: string, port: string)
    requires '[' !in host && ']' !in host
    requires ':' !in port && '[' !in port && ']' !in port
    ensures SplitHost(JoinHostPort(host, port)) == Some(host)
  {
    var hp := JoinHostPort(host, port);
    var i := LastIndexOf(hp, ':');
    if ':' in host {
      assert hp == "[" + host + "]" + ":" + port;
      var c := |host| + 2;
      assert hp[c] == ':';
      assert forall k :: c < k < |hp| ==> hp[k] == port[k - c - 1];
      assert i == c;
      var end := IndexOf(hp, ']');
      assert hp[|host| + 1] == ']';
      assert forall k :: 0 <= k < |host| + 1 ==> hp[k] != ']';
      assert end == |host| + 1;
      assert hp[1..] == host + "]" + ":" + port;
      assert hp[end + 1..] == ":" + port;
      assert hp[1..end] == host;
    } else {
      var c := |host|;
      assert hp == host + ":" + port;
      assert hp[c] == ':';
      assert forall k :: c < k < |hp| ==> hp[k] == port[k - c - 1];
      assert i == c;
      assert hp[..i] == host;
      assert hp[0] != '[';
    }
  }

  /** The X-Forwarded-For header, when present, decides the address: its first entry with
      the surrounding white space removed, whatever the peer address is. */
  lemma ForwardedForOverridesPeer(fwd: string, remoteAddr: string, remoteAddr': string)
    requires fwd != ""
    ensures ClientAddress(remoteAddr, fwd) == ClientAddress(remoteAddr', fwd)
  {
  }
}
