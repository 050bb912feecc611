/** The vocabulary of the authorization decision: what a token asserts, what the server concludes,
    and the closed set of reasons for refusing. */
module Domain {

  datatype Option<+T> = None | Some(value: T)

  datatype Reason =
    | SignatureInvalid
    | IssuerUnknown
    | TokenExpired
    | TokenMalformed
    | AudienceMismatch
    | InsufficientEffectiveScope
    | DelegationMalformed
    | ApprovalRequired
    | ApprovalExpired
    | ApprovalAlreadyConsumed
    | UnknownTool
    | RateLimited

  /** One hop of a delegation chain: who delegated, and what they held when they did. */
  datatype Link = Link(subject: string, scopes: set<string>)

  /** What an authentic token asserts. The chain is root first. */
  datatype Claims = Claims(
    issuer: string,
    subject: string,
    audience: seq<string>,
    expiresAt: int,
    issuedAt: int,
    tokenId: string,
    scopes: set<string>,
    chain: seq<Link>)

  /** The answer of token verification: claims, or the reason there are none. */
  datatype Presented = Verified(claims: Claims) | Unverified(reason: Reason)

  datatype Policy = Policy(name: string, checkAudience: bool, attenuateChain: bool)

  const HARDENED := Policy("hardened", true, true)
  const NAIVE := Policy("naive", false, false)

  /** What the server concluded about a token and a tool. */
  datatype Verdict = Verdict(
    allowed: bool,
    reason: Option<Reason>,
    effective: set<string>,
    subject: Option<string>,
    tokenId: Option<string>,
    chainScopes: seq<set<string>>,
    required: Option<string>,
    policy: string)

  const TOOL_SCOPES: map<string, string> :=
    map["read_account" := "account:read", "flag_account" := "account:flag", "issue_credit" := "credit:issue"]

  const IRREVERSIBLE_TOOLS: set<string> := {"issue_credit"}
}
