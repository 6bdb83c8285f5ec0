/** Client metadata documents (cimd.go): validation, the memory cache and the persisted last good copy. */
module Cimd {
  import opened Tables
  import opened Urls
  import Text

  const MINUTE: int := 60_000
  const HOUR: int := 60 * MINUTE
  const MIN_TTL: int := MINUTE
  const MAX_TTL: int := 24 * HOUR
  const DEFAULT_TTL: int := HOUR
  const STALE_MAX: int := 7 * 24 * HOUR

  /** One part of a Cache-Control header; max-age carries its parsed seconds, an int64. */
  datatype Directive = MaxAge(seconds: int) | NoStore | NoCache | OtherDirective

  datatype Fetch =
    | FetchFailed
    | Document(clientId: Url, name: string, redirects: seq<Url>, authMethod: string, cacheControl: seq<Directive>)

  // ----- lifetime -------------------------------------------------------------------

  /** The lifetime in milliseconds the header asks for: the last directive that says anything wins. */
  function Requested(cc: seq<Directive>): int {
    if cc == [] then DEFAULT_TTL
    else
      match cc[|cc| - 1]
      case MaxAge(n) => Wrap64(n * SECOND) / 1_000_000
      case NoStore => MIN_TTL
      case NoCache => MIN_TTL
      case OtherDirective => Requested(cc[..|cc| - 1])
  }

  function Ttl(cc: seq<Directive>): int {
    var r := Requested(cc);
    if r < MIN_TTL then MIN_TTL else if r > MAX_TTL then MAX_TTL else r
  }

  /** The last directive that says anything is number i. */
  ghost predicate SpeaksLast(cc: seq<Directive>, i: nat) {
    i < |cc| && !cc[i].OtherDirective? && forall j :: i < j < |cc| ==> cc[j].OtherDirective?
  }

  /** max-age in seconds within a minute and a day, no-store and no-cache a minute, and an hour when nothing is said. */
  lemma {:induction false} TtlMeaning(cc: seq<Directive>, i: nat)
    ensures (forall j :: 0 <= j < |cc| ==> cc[j].OtherDirective?) ==> Ttl(cc) == 3_600_000
    ensures SpeaksLast(cc, i) && !cc[i].MaxAge? ==> Ttl(cc) == 60_000
    ensures SpeaksLast(cc, i) && cc[i].MaxAge? && -INT64_MAX <= cc[i].seconds * SECOND <= INT64_MAX ==>
              var n := cc[i].seconds; Ttl(cc) == if n < 60 then 60_000 else if n > 86_400 then 86_400_000 else n * 1000
  {
    if cc != [] && cc[|cc| - 1].OtherDirective? {
      TtlMeaning(cc[..|cc| - 1], i);
    } else if cc != [] && cc[|cc| - 1].MaxAge? {
      var n := cc[|cc| - 1].seconds;
      if -INT64_MAX <= n * SECOND <= INT64_MAX {
        assert Wrap64(n * SECOND) == n * SECOND;
        assert n * SECOND / 1_000_000 == n * 1000;
      }
    }
  }

  method CacheTtl(cc: seq<Directive>) returns (ttl: int)
    ensures ttl == Ttl(cc) && MIN_TTL <= ttl <= MAX_TTL
  {
    ttl := DEFAULT_TTL;
    for i := 0 to |cc|
      invariant ttl == Requested(cc[..i])
    {
      assert cc[..i + 1][..i] == cc[..i];
      match cc[i] {
        case MaxAge(n) => ttl := Wrap64(n * SECOND) / 1_000_000;
        case NoStore => ttl := MIN_TTL;
        case NoCache => ttl := MIN_TTL;
        case OtherDirective =>
      }
    }
    assert cc[..|cc|] == cc;
    if ttl < MIN_TTL {
      ttl := MIN_TTL;
    }
    if ttl > MAX_TTL {
      ttl := MAX_TTL;
    }
  }

  // ----- resolution -----------------------------------------------------------------

  predicate HostAllowed(cfg: Config, clientId: Url) {
    cfg.clientHosts == [] || (clientId.Url? && LowerAscii(clientId.hostname) in cfg.clientHosts)
  }

  predicate MayBeClient(cfg: Config, clientId: Url) {
    IsClientIdUrl(clientId, cfg.allowLocal) && HostAllowed(cfg, clientId)
  }

  /** fetchClientMetadata: the document names itself, lists only safe redirects, and wants no client secret. */
  predicate DocumentOk(clientId: Url, f: Fetch) {
    && f.Document?
    && f.clientId == clientId
    && f.redirects != [] && RegisteredOk(clientId, f.redirects)
    && (f.authMethod == "" || f.authMethod == "none")
  }

  predicate Cached(cache: map<Url, CacheEntry>, clientId: Url, now: int) {
    clientId in cache && now < cache[clientId].expires
  }

  /** A persisted copy young enough to stand in for a failed fetch. */
  predicate Usable(clients: map<Url, Client>, clientId: Url, now: int) {
    clientId in clients && now - clients[clientId].createdAt < STALE_MAX
  }

  /** Where a client comes from: memory, a fetched document, or the persisted copy. */
  datatype Source = NoClient | FromMemory(client: Client) | Fetched(client: Client, ttl: int) | LastGood(client: Client)

  function SourceOf(cfg: Config, clients: map<Url, Client>, cache: map<Url, CacheEntry>, clientId: Url, now: int, f: Fetch): Source {
    if !MayBeClient(cfg, clientId) then NoClient
    else if Cached(cache, clientId, now) then FromMemory(cache[clientId].client)
    else if DocumentOk(clientId, f) then Fetched(Client(Text.Trim(f.name, Text.IsSpace), f.redirects, now), Ttl(f.cacheControl))
    else if Usable(clients, clientId, now) then LastGood(clients[clientId])
    else NoClient
  }

  /** A fetched document is cached and persisted, a last good copy is cached for a minute. */
  function Keep(s: State, clientId: Url, now: int, source: Source): (State, Option<Client>) {
    match source
    case NoClient => (s, None)
    case FromMemory(c) => (s, Some(c))
    case Fetched(c, ttl) => (s.(cache := s.cache[clientId := CacheEntry(c, now + ttl)], clients := s.clients[clientId := c]), Some(c))
    case LastGood(c) => (s.(cache := s.cache[clientId := CacheEntry(c, now + MIN_TTL)]), Some(c))
  }

  /** resolveClient */
  function ResolveClient(cfg: Config, s: State, clientId: Url, now: int, f: Fetch): (State, Option<Client>) {
    Keep(s, clientId, now, SourceOf(cfg, s.clients, s.cache, clientId, now, f))
  }

  // ----- invariants --------------------------------------------------------------------

  /** Persisted clients list only safe redirects. */
  ghost predicate ClientsSafe(clients: map<Url, Client>) {
    forall u :: u in clients ==> RegisteredOk(u, clients[u].redirects)
  }

  /** So do cached ones, and no entry outlives its document by more than seven days and a minute. */
  ghost predicate CacheOk(cache: map<Url, CacheEntry>) {
    forall u :: u in cache ==>
      && RegisteredOk(u, cache[u].client.redirects)
      && cache[u].expires <= cache[u].client.createdAt + STALE_MAX + MIN_TTL
  }

  ghost function ClientOf(source: Source): Option<Client> {
    if source.NoClient? then None else Some(source.client)
  }

  lemma SourceIsSafe(cfg: Config, clients: map<Url, Client>, cache: map<Url, CacheEntry>, clientId: Url, now: int, f: Fetch)
    requires ClientsSafe(clients) && CacheOk(cache)
    ensures var source := SourceOf(cfg, clients, cache, clientId, now, f);
            && (ClientOf(source).Some? ==> RegisteredOk(clientId, source.client.redirects))
            && (source.FromMemory? ==> now - source.client.createdAt < STALE_MAX + MIN_TTL)
            && (source.Fetched? ==> source.client.createdAt == now && source.ttl <= MAX_TTL)
            && (source.LastGood? ==> now - source.client.createdAt < STALE_MAX)
  {
  }

  lemma KeepIsSafe(s: State, clientId: Url, now: int, source: Source)
    requires ClientsSafe(s.clients) && CacheOk(s.cache)
    requires ClientOf(source).Some? ==> RegisteredOk(clientId, source.client.redirects)
    requires source.Fetched? ==> source.client.createdAt == now && source.ttl <= MAX_TTL
    requires source.LastGood? ==> now - source.client.createdAt < STALE_MAX
    ensures var (t, c) := Keep(s, clientId, now, source);
            c == ClientOf(source) && t == s.(cache := t.cache, clients := t.clients) && ClientsSafe(t.clients) && CacheOk(t.cache)
  {
  }

  /** Resolving keeps both, and whatever it serves is safe and younger than seven days and a minute. */
  lemma ResolvedClient(cfg: Config, s: State, clientId: Url, now: int, f: Fetch)
    requires ClientsSafe(s.clients) && CacheOk(s.cache)
    ensures var (t, c) := ResolveClient(cfg, s, clientId, now, f);
            && t == s.(cache := t.cache, clients := t.clients)
            && ClientsSafe(t.clients) && CacheOk(t.cache)
            && (c.Some? ==> RegisteredOk(clientId, c.value.redirects) && now - c.value.createdAt < STALE_MAX + MIN_TTL)
  {
    SourceIsSafe(cfg, s.clients, s.cache, clientId, now, f);
    KeepIsSafe(s, clientId, now, SourceOf(cfg, s.clients, s.cache, clientId, now, f));
  }

  /** evictExpired */
  function EvictExpired(s: State, now: int): State {
    s.(cache := Unexpired(s.cache, now))
  }

  function Unexpired(cache: map<Url, CacheEntry>, now: int): map<Url, CacheEntry> {
    map u | u in cache && !(now > cache[u].expires) :: cache[u]
  }

  function ClientsInUse(clients: map<Url, Client>, tokens: map<Id, Token>, codes: map<Id, Code>, now: int): map<Url, Client> {
    map u | u in clients &&
            !( && clients[u].createdAt < now - STALE_MAX
               && (forall t :: t in tokens ==> tokens[t].clientId != u)
               && (forall c :: c in codes ==> codes[c].clientId != u)) :: clients[u]
  }

  /** The clean-up of oauth_clients in purgeAuth. */
  function PurgeClients(s: State, now: int): State {
    s.(clients := ClientsInUse(s.clients, s.tokens, s.codes, now))
  }

  /** Cleaning up never removes a copy that a later request could still have been served from. */
  lemma PurgeKeepsUsableClients(cfg: Config, s: State, now: int, clientId: Url, later: int, f: Fetch)
    requires now <= later
    ensures Usable(s.clients, clientId, later) ==> Usable(PurgeClients(s, now).clients, clientId, later)
    ensures Cached(s.cache, clientId, later) <==> Cached(EvictExpired(s, now).cache, clientId, later)
    ensures ResolveClient(cfg, EvictExpired(PurgeClients(s, now), now), clientId, later, f).1
         == ResolveClient(cfg, s, clientId, later, f).1
  {
  }
}
