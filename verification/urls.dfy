/** Redirect URIs (oauth.go, cimd.go): validation, loopback, and the port-ignoring match of RFC 8252, section 7.3. */
module Urls {

  /** Whether there is a '#', and anything after it. */
  datatype Hash = NoHash | BareHash | Fragment

  /** A parsed URL. rest stands for every detail not named here, so that equal texts are equal values. */
  datatype Url =
    | Unparsable(text: string)
    | Url(scheme: string, credentials: bool, hostname: string, port: string, path: string, hash: Hash, rest: string)

  function LowerAscii(s: string): (r: string)
    ensures |r| == |s|
  {
    if s == [] then []
    else [if 'A' <= s[0] <= 'Z' then (s[0] as int + 32) as char else s[0]] + LowerAscii(s[1..])
  }

  predicate SameOrigin(a: Url, b: Url) {
    a.Url? && b.Url? && a.scheme == b.scheme && LowerAscii(a.hostname) == LowerAscii(b.hostname) && a.port == b.port
  }

  predicate IsLoopback(u: Url) {
    u.Url? && u.scheme == "http" && (u.hostname == "localhost" || u.hostname == "127.0.0.1" || u.hostname == "::1")
  }

  /** validateRedirectURI */
  predicate ValidRedirect(u: Url) {
    && u.Url? && u.scheme != "" && (u.hostname != "" || u.port != "")
    && u.hash == NoHash
    && !u.credentials
    && (u.scheme == "https" || IsLoopback(u))
  }

  /** Where a client may send its users: its own origin, or a native app on this machine. */
  predicate SafeRedirect(clientId: Url, u: Url) {
    IsLoopback(u) || SameOrigin(u, clientId)
  }

  /** What the metadata document of clientId may list. */
  predicate RegisteredOk(clientId: Url, redirects: seq<Url>) {
    forall i :: 0 <= i < |redirects| ==> ValidRedirect(redirects[i]) && SafeRedirect(clientId, redirects[i])
  }

  /** redirectURIAllowed */
  method RedirectUriAllowed(registered: seq<Url>, presented: Url) returns (ok: bool)
    ensures ok == Allowed(registered, presented)
  {
    if presented in registered {
      return true;
    }
    if !IsLoopback(presented) {
      return false;
    }
    for i := 0 to |registered|
      invariant forall j :: 0 <= j < i ==> !PortBlindMatch(registered[j], presented)
    {
      var r := registered[i];
      if !IsLoopback(r) {
        continue;
      }
      if r.hostname == presented.hostname && r.path == presented.path {
        assert PortBlindMatch(r, presented);
        return true;
      }
    }
    ok := false;
  }

  predicate PortBlindMatch(r: Url, presented: Url) {
    IsLoopback(r) && IsLoopback(presented) && r.hostname == presented.hostname && r.path == presented.path
  }

  predicate Allowed(registered: seq<Url>, presented: Url) {
    presented in registered || exists r :: r in registered && PortBlindMatch(r, presented)
  }

  /** Port-blind matching never leaves the client's origin and the loopback addresses. */
  lemma AllowedIsSafe(clientId: Url, registered: seq<Url>, presented: Url)
    requires RegisteredOk(clientId, registered) && Allowed(registered, presented)
    ensures SafeRedirect(clientId, presented)
  {
  }

  /** An accepted redirect meets every rule for registered ones exactly when it has neither credentials nor a '#'. */
  lemma AllowedIsValidExactly(clientId: Url, registered: seq<Url>, presented: Url)
    requires RegisteredOk(clientId, registered) && Allowed(registered, presented)
    ensures ValidRedirect(presented) <==> !presented.credentials && presented.hash == NoHash
  {
  }

  /** Port-blind matching does let credentials and fragments through. */
  lemma LoopbackDetailsSlipThrough() returns (clientId: Url, registered: Url, presented: Url)
    ensures RegisteredOk(clientId, [registered]) && Allowed([registered], presented) && !ValidRedirect(presented)
  {
    clientId := Url("https", false, "client.example", "", "/meta.json", NoHash, "");
    registered := Url("http", false, "localhost", "", "/callback", NoHash, "");
    presented := Url("http", true, "localhost", "4711", "/callback", Fragment, "");
    assert PortBlindMatch(registered, presented);
  }

  /** isClientIDURL */
  predicate IsClientIdUrl(u: Url, allowHttp: bool) {
    && u.Url?
    && (u.scheme == "https" || (allowHttp && u.scheme == "http"))
    && (u.hostname != "" || u.port != "") && !u.credentials && u.hash != Fragment
    && u.path != "" && u.path != "/"
  }
}
