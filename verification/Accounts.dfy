/** Saved accounts and the contents that the persistence layer stores.

    The JSON codec is abstract: a stored document is the ordered list of accounts
    it encodes, and SHA-256 is an injective constructor. */
module Accounts {
  import opened Wrappers

  datatype ProviderId = Claude | Codex

  /** A private home: below the canonical private root, or anywhere else. */
  datatype Home = Canonical(bundle: seq<string>) | Elsewhere(path: string)

  datatype Credentials =
    | SetupToken(access: string)
    | ClaudeLogin(access: string, login: string)
    | CodexLogin(access: string, rotation: Option<string>, home: Option<Home>)
  {
    function Provider(): ProviderId {
      if CodexLogin? then Codex else Claude
    }

    function RefreshToken(): Option<string> {
      match this
      case SetupToken(_) => None
      case ClaudeLogin(_, login) => Some(login)
      case CodexLogin(_, rotation, _) => rotation
    }

    /** The canonical private bundle the credentials name, if any. */
    function CanonicalHome(): Option<seq<string>> {
      if CodexLogin? && home.Some? && home.value.Canonical? then Some(home.value.bundle) else None
    }
  }

  datatype RefreshStatus = Succeeded | Failed

  datatype Account = Account(
    name: string,
    credentials: Credentials,
    plan: string,
    lastRefreshAt: Option<int>,
    lastRefreshStatus: Option<RefreshStatus>,
    lastRefreshError: Option<string>,
    heartbeat: int)

  datatype Content =
    | Document(accounts: seq<Account>)
    | AuthFile(credentials: Credentials)
    | Blob(bytes: seq<int>)

  datatype Digest = Sha256(preimage: Content)
}
