/** A server, a user and a client for the examples. */
module Examples {
  import opened Tables
  import opened Oidc
  import opened Urls

  const QUARTER: int := 900_000

  /** Teams from groups, and a refresh every quarter of an hour. */
  const PLAIN := Config(900 * SECOND, false, "", "", [], "", [], false, v => v, r => true, c => true)

  const FIRST := Identity("user", "", "", "rt0", 0, [Team("a", false)], "")

  const RENEWED := Tokens(IdToken(Claims("user", "", "", Some(["b"]), map[], Some(""))), "rt1", 0, NoEndpoint)

  const CLIENT := Url("https", false, "client.example", "", "/meta.json", NoHash, "")
  const BACK := Url("http", false, "localhost", "", "/callback", NoHash, "")
}
