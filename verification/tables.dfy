/** The rows behind logins, consent and tokens (db.go), and the server's configuration. */
module Tables {
  import opened Urls

  type Id = string

  datatype Option<+T> = None | Some(value: T)

  datatype Team = Team(slug: string, maintainer: bool)
  datatype Project = Project(id: string, slug: string)

  /**
    refreshInterval is in nanoseconds; projects are sorted by id. s256 (the S256 challenge of a verifier),
    resourceOk and scopeOk are left uninterpreted.
   */
  datatype Config = Config(
    refreshInterval: int, requireTeam: bool,
    groupPrefix: string, maintainerSuffix: string, projects: seq<Project>, maintainerRole: string,
    clientHosts: seq<string>, allowLocal: bool,
    s256: string -> string, resourceOk: string -> bool, scopeOk: string -> bool)

  const INT64_MAX: int := 0x7fff_ffff_ffff_ffff

  /** newApp replaces an interval that is not positive. */
  ghost predicate ValidConfig(cfg: Config) {
    0 < cfg.refreshInterval <= INT64_MAX
  }

  const SECOND: int := 1_000_000_000  // ns
  const REFRESH_LEEWAY: int := 15_000
  const SESSION_TTL: int := 7 * 24 * 60 * 60 * 1000
  const CODE_TTL: int := 5 * 60 * 1000
  const ACCESS_TTL: int := 60 * 60 * 1000
  const REFRESH_TTL: int := 30 * 24 * 60 * 60 * 1000
  const REQUEST_TTL: int := 30 * 60 * 1000

  /** int64 arithmetic wraps. */
  function Wrap64(x: int): int {
    (x + 0x8000_0000_0000_0000) % 0x1_0000_0000_0000_0000 - 0x8000_0000_0000_0000
  }

  datatype User = User(username: string, name: string, email: string)
  datatype Session = Session(subject: string, expiresAt: int, idp: Id)

  /** One login at the provider. "" stands for SQL NULL in sid and refreshToken. */
  datatype Login = Login(
    subject: string, sid: string, refreshToken: string, teams: seq<Team>,
    refreshedAt: int, createdAt: int, accessExpiresAt: int)

  datatype Client = Client(name: string, redirects: seq<Url>, createdAt: int)
  datatype CacheEntry = CacheEntry(client: Client, expires: int)

  /** session is the browser session the consent page was shown to, "" before that. */
  datatype Request = Request(
    clientId: Url, redirect: Url, scope: string, state: string,
    challenge: string, method_: string, expiresAt: int, session: Id)

  datatype Code = Code(
    clientId: Url, subject: string, redirect: Url, challenge: string, method_: string,
    scope: string, expiresAt: int, used: bool, idp: Id)

  datatype TokenKind = Access | Refresh
  datatype Token = Token(
    kind: TokenKind, clientId: Url, subject: string, scope: string, expiresAt: int, revoked: bool, idp: Id)

  /** The database, the in-memory client cache, and every id genID ever returned. */
  datatype State = State(
    users: map<string, User>,
    sessions: map<Id, Session>,
    logins: map<Id, Login>,
    clients: map<Url, Client>,
    cache: map<Url, CacheEntry>,
    requests: map<Id, Request>,
    codes: map<Id, Code>,
    tokens: map<Id, Token>,
    issued: set<Id>)

  const EMPTY := State(map[], map[], map[], map[], map[], map[], map[], map[], {})

  datatype ErrorCode =
    | InvalidClient | InvalidRedirectUri | InvalidTarget | UnsupportedResponseType | InvalidRequest
    | InvalidScope | AccessDenied | InvalidGrant | TemporarilyUnavailable

  /** What a caller gets to see. */
  datatype Answer =
    | Done
    | Failed(error: ErrorCode)
    | NotSignedIn
    | ProviderDown
    | SignedInAs(subject: string, user: User, teams: seq<Team>)
    | RequestPending(request: Id)
    | ConsentShown(clientId: Url, redirect: Url)
    | CodeSent(code: Id, redirect: Url, state: string)
    | Issued(access: Id, refresh: Id, scope: string)
}
