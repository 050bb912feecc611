# Agent authorization broker: a verified model

The broker lets an agent call tools on somebody's behalf. Each call is one PostgreSQL transaction: it
claims a unit of quota, looks up a human's approval for exactly this act, spends that approval with a
conditional update, writes the irreversible effect under a UNIQUE constraint, appends an audit row, and
commits or rolls back. This project models that transaction and what surrounds it, and proves what the
broker claims about one approval, one effect; about the ceiling; about two policies compared; about
delegation; and about the console's redaction of its own configuration.

## How the pieces fit

* **The tables and one call** (`Domain`, `RateLimit`, `Ledger`). Four tables, each a map from primary
  key to row. `Rules(db, call, used, ruling)` is the serial meaning of a call: the ruling and quota
  position with which it may commit when it runs alone. `Publish` is what it writes.
* **Calls at once** (`Machine`). A state machine at READ COMMITTED: any number of transactions, each with
  a program counter, interleaved statement by statement with grants and with failures at any point.
  A statement sees what is committed when it runs; a write to a row that another transaction has changed
  waits, and re-checks its condition when the wait ends. Locks held and rows written but not committed
  are functions of the program counter.
* **What every run keeps** (`Invariant`, `Books`, `Trail`, `Quota`, `Sliding`, `Burst`, `Progress`).
* **Interleaved is serial** (`Views`, `Serialisability`, `Turns`, `Reachability`, `Drive`, `Throughput`,
  `Pileup`, `Backstop`). The quota row's lock, held to the commit, makes one bucket's calls take turns. The proof
  is a simulation: a transaction *pledges* its outcome at its deciding statement, and the serial tables
  are the committed ones with every pledge of an eventual winner already paid.
* **The serial service** (`Authz`, `Tokens`, `Transport`, `Effects`, `Answers`, `Store`). The code that changes
  state is imperative here too: `Store.Database` is a class whose methods change the tables statement by
  statement, and `CallTool` is proved against the same `Rules` that the state machine is compared with.
* **Histories** (`Noninterference`, `Policies`, `Ceiling`, `Matrix`). Subjects do not influence one
  another; the two policies on one history; the security matrix that measures them.
* **Text** (`ScopeText`, `TestAuthority`, `Delegation`, `Redaction`, `Leaks`) and **counting** (`Cardinality`).

`dafny verify dfyconfig.toml` checks everything.

## Where the code and its documentation differ

* The matrix's note (`src/agent_authz_broker/demo/matrix.py:410-413`) says that the loser of two
  concurrent calls reports `approval_already_consumed`. Two calls for one act under a ceiling and in one
  window never do (`Serialisability.NeverAlreadyConsumed`): the loser waits for the quota row and then finds
  no approval left. `Turns.AlreadyConsumedIff` says exactly which calls can be told so.
* Concurrent calls are not always serialisable: with two approvals on file, two calls without a ceiling can
  be handed the same one, and one of them is refused although another is left (`Backstop.OneOfTwo`).
  `Turns.SerialisableIff` says exactly which calls are.
* The console promises that a failure never names the configured origin
  (`frontend/src/lib/server/source.ts:68-76`). That holds exactly when the origin cannot be laid over the
  replacement text so that they agree where they overlap (`Leaks.HiddenIff`). It fails for an absolute
  address that ends in `<`, such as `http://b/<` (`Leaks.BracketLeaksAtEnd`).
* The comparison of the two policies is a statement about histories without a ceiling. With any ceiling
  there is a history on which the hardened server writes more (`Ceiling.NeverMoreIffNoCeiling`).

## Model

| member | source | states |
|---|---|---|
| `Invariant.RunInv` | src/agent_authz_broker/effects.py:169-364 | In every reachable state, whichever mechanisms are in place: no quota row and no approval row is locked twice, whoever holds a quota row holds the next position in it, a row won by the conditional update is still unspent in the committed table, and every approval in hand binds the call on subject, tool, account and amount and was live at its moment |
| `Serialisability.Serialisable` | src/agent_authz_broker/effects.py:169-364 | Where any two calls that can come to look for an approval of one act claim their quota in one counter row (no other call needs a ceiling or a common window), every interleaving of statements, grants and failures equals a serial run: the committed calls, each placed at its deciding statement, can run one at a time with the very decision, reason, approval and quota position they committed with, the grants keep their order, and the final tables are the same |
| `Serialisability.PivotRules` | src/agent_authz_broker/approvals.py:107-127 | The statement that decides a call gives the same answer on the committed tables as on the tables in which every earlier-decided call has already committed |
| `Serialisability.StepSettled` | src/agent_authz_broker/effects.py:182-353 | One step of the interleaved machine is either one allowed serial deed or nothing at all, on the settled tables |
| `Serialisability.NeverAlreadyConsumed` | src/agent_authz_broker/effects.py:294-319 | Under the same condition no call, in any state, loses the approval it was handed |
| `Turns.NeverToldConsumed` | src/agent_authz_broker/effects.py:294-319 | Under the same condition no audit row, in any state of any run, gives a call the reason `approval_already_consumed` |
| `Turns.SerialisableIff` | src/agent_authz_broker/effects.py:169-364 | The exact condition, for any starting tables and calls: every run from there is explained by a serial history if and only if rivals take turns. Two calls are rivals if both are allowed, irreversible, do not raise and are not already past their ceiling, and they name one subject, tool, account and positive amount; they take turns if they claim in one counter row |
| `Turns.AlreadyConsumedIff` | src/agent_authz_broker/effects.py:294-319 | From any start, the audit trail of some run gives a committed call the reason `approval_already_consumed` if and only if it is not the case that rivals take turns |
| `Turns.Collide` | src/agent_authz_broker/effects.py:260-319 | For any two rivals that share no counter row, from any start and beside any other calls, a run with one grant and no failure in which the second commits, and its audit row says `approval_already_consumed` |
| `Backstop.NotSerialisable` | src/agent_authz_broker/effects.py:182-184 | The collision for two calls without a ceiling: no serial history has the outcomes of the run |
| `Backstop.NotSerialisableAcrossWindows` | src/agent_authz_broker/ratelimit.py:41-48 | The collision for two calls under a ceiling in adjacent windows: no serial history has the outcomes of the run |
| `Reachability.SerialIsReachable` | src/agent_authz_broker/effects.py:169-364 | The converse: every serial history of the calls and grants is a run of the machine that loses nothing to a failure and ends in the same tables with the same outcomes |
| `Drive.RunAlone` | src/agent_authz_broker/effects.py:169-364 | From any quiet state one call can run from its first statement to its commit with any ruling that the serial meaning allows it |
| `Books.RunBalanced` | src/agent_authz_broker/effects.py:260-352 | In every state of every run: each effect names an approval with the same subject, tool, account and amount, the amount is positive, the approval is spent at a moment strictly before its expiry, no approval has two effects, every spent approval has one, and every audit row that names an effect is allowed, names that effect's approval, and is the only one |
| `Books.RunCounts` | src/agent_authz_broker/db/models.py:76-124 | In every state of every run the effects, the spent approvals and the audit rows that name an effect are equally many |
| `Books.RunDurable` | src/agent_authz_broker/approvals.py:146-153 | Between any two moments of a run nothing is lost or rewritten: approvals keep every column but `consumed_at`, which is written once; effects and audit rows stay as written; no counter goes down |
| `Trail.RunTrail` | src/agent_authz_broker/effects.py:57-88 | In every state of every run, whatever interleaves and whatever fails: the audit trail is the rows of the start, unchanged, and exactly one row for each committed call, with its verdict and ruling; the effects are those of the start and exactly one for each call that committed as issued, of the approval it names |
| `Trail.RunAnswers` | src/agent_authz_broker/effects.py:57-88 | In every state of every run the audit row of each committed call says what it must, column by column: the verdict's own reason where the verdict refuses; `rate_limited` exactly if the call has a ceiling and its position is past it; no reason for a reversible tool within it; for an irreversible tool no reason, or one of the three approval reasons, with an approval named exactly if one was spent or lost; and an effect named exactly if one was issued |
| `Trail.ToldIffLost` | src/agent_authz_broker/effects.py:294-319 | A committed call's row says `approval_already_consumed` exactly if it lost the race for its approval |
| `Trail.RowsAdded` | src/agent_authz_broker/effects.py:169-364 | The audit trail has grown by the number of committed calls and the effects by the number of committed issues |
| `Trail.RunSpendingTrail` | src/agent_authz_broker/approvals.py:146-153 | In every state of every run an approval is spent exactly if it was at the start or a committed call issued on it, and then at the moment of that very call |
| `Trail.RunGranted` | src/agent_authz_broker/approvals.py:73-85 | The approvals on file are those of the start and those granted since; no call adds or removes one |
| `Trail.RunCounters` | src/agent_authz_broker/ratelimit.py:78-87 | A counter has risen by exactly the committed calls that claimed in its bucket |
| `Trail.FailedLeavesNothing` | src/agent_authz_broker/effects.py:330-338 | A call that is rolled back, at any statement, has no audit row and no effect and is counted in no bucket |
| `Books.ConstraintNeverFires` | src/agent_authz_broker/effects.py:330-338 | With the `IS NULL` condition in the update, the UNIQUE constraint never refuses: a transaction about to insert its effect finds no other for the approval, in any run |
| `Backstop.OneEffectIff` | src/agent_authz_broker/db/models.py:86-90 | Every run keeps at most one effect for each approval if and only if at least one of the two mechanisms, the update's condition and the UNIQUE constraint, is in place |
| `Backstop.ConstraintFires` | src/agent_authz_broker/effects.py:330-338 | With the condition gone from the update and the UNIQUE constraint alone in place, a run without failures in which both calls win the update and the constraint rolls the slower one back |
| `Backstop.OneOfTwo` | src/agent_authz_broker/approvals.py:118-127 | Without a ceiling, two calls with two live approvals can end in one effect and one `approval_already_consumed`, the second approval untouched |
| `Quota.RunGapFree` | src/agent_authz_broker/ratelimit.py:78-87 | In every state, wherever transactions fail, the positions that committed calls of a bucket hold are used once each, with no gap up to the stored count |
| `Quota.PositionsExact` | src/agent_authz_broker/ratelimit.py:51-87 | The committed calls of a bucket correspond one to one to the positions its counter rose through |
| `Quota.CeilingHolds` | src/agent_authz_broker/effects.py:182-206 | Under one limit, the calls that went on past the ceiling are exactly those with a position within it, so at most what the limit leaves |
| `Quota.WindowFormula` | src/agent_authz_broker/ratelimit.py:41-48 | The window as one division: floored for moments from the epoch on, and shifted by the truncation toward zero for earlier ones |
| `RateLimit.SecondsTruncate` | src/agent_authz_broker/ratelimit.py:47 | Whole seconds, truncated toward the epoch |
| `RateLimit.WindowStarts` | src/agent_authz_broker/ratelimit.py:48 | A window begins on a whole minute, at most fifty-nine seconds before |
| `Quota.WindowsMet` | src/agent_authz_broker/ratelimit.py:41-48 | An interval meets at most one window more than it is long |
| `Sliding.SlidingBound` | src/agent_authz_broker/ratelimit.py:13-17 | In any interval of any run, at most (ceil(length / 60 s) + 1) * limit calls of one subject and tool pass the ceiling |
| `Sliding.TwiceTheLimit` | src/agent_authz_broker/ratelimit.py:13-17 | Over an arbitrary minute, at most twice the limit |
| `Burst.TwiceTheLimitAttained` | src/agent_authz_broker/ratelimit.py:13-17 | For every limit there is a run that lets exactly twice the limit through within one minute |
| `Progress.NoDeadlock` | src/agent_authz_broker/effects.py:182-184 | In every state that keeps the invariant, while some transaction is unfinished some transaction can run its next statement, without counting on a failure |
| `Progress.InsertNeverWaits` | src/agent_authz_broker/effects.py:321-332 | In every state that keeps the invariant, a call that has won its approval never waits to insert its effect: the row lock has kept every other inserter out |
| `Progress.RunsAreShort` | src/agent_authz_broker/effects.py:169-364 | Every run takes at most as many steps, grants aside, as its calls had statements left; each step lowers a natural-number measure |
| `Progress.MeasureBound` | src/agent_authz_broker/effects.py:169-364 | That measure is at most six for each call |
| `Progress.CanFinish` | src/agent_authz_broker/effects.py:169-364 | From wherever a run stands, statements alone can take every call to its commit or rollback |
| `Progress.LookupAnswers` | src/agent_authz_broker/approvals.py:107-127 | On any table contents the lookup has an answer |
| `Throughput.ExactThroughput` | tests/test_rate_limit.py:113-131 | k calls racing in one empty bucket for n approvals live at all their moments, limit L > 0, none lost to a failure: exactly min(k, L, n) effects written, exactly k - min(k, L) calls refused `rate_limited`, the rest refused `approval_required`, no call ending in any other way, and each call's audit row says which |
| `Throughput.UnlimitedThroughput` | src/agent_authz_broker/effects.py:260-353 | The same race without a ceiling serves at least one call and at most min(k, n), in every interleaving, and writes exactly one effect for each |
| `Throughput.UnlimitedSerial` | src/agent_authz_broker/effects.py:260-353 | One at a time without a ceiling, exactly the first min(k, n) calls write an effect |
| `Pileup.OneServed` | src/agent_authz_broker/effects.py:260-319 | The lower bound is attained for every k and n of at least one: a run without failures in which all are handed the same approval, one writes its effect and every other is refused |
| `Pileup.MostServed` | src/agent_authz_broker/effects.py:260-353 | The upper bound is attained too: a run without failures that writes exactly min(k, n) effects |
| `Noninterference.OthersDeleted` | src/agent_authz_broker/approvals.py:110-117 | Deleting every call and grant of other subjects from a serial history leaves a possible history in which each remaining call has its decision, reason, approval and quota position unchanged |
| `Noninterference.SubjectsCommute` | src/agent_authz_broker/db/models.py:150-153 | Calls of different verified subjects can be swapped: each keeps its outcome and the tables end the same |
| `Policies.HardenedNeverWritesMore` | src/agent_authz_broker/authz.py:127-153 | From one database, on one history of grants and requests without a ceiling, at every point the hardened server has written no more effects than the naive one, and every unspent approval of the naive server is matched one to one with an unspent one of the hardened server on the same terms and expiry, however ties in the lookup fall |
| `Policies.CoverAsk` | src/agent_authz_broker/effects.py:256-296 | One request keeps that matching: where the hardened server takes an approval that covers another, a spare one takes its place |
| `Ceiling.NeverMoreIffNoCeiling` | src/agent_authz_broker/effects.py:182-184 | The comparison holds on every history if and only if there is no ceiling |
| `Ceiling.CeilingReverses` | src/agent_authz_broker/effects.py:182-206 | For every positive limit, a history on which the naive server spends its quota on a misaddressed token and the hardened server writes more |
| `Effects.Frames` | src/agent_authz_broker/effects.py:169-364 | An exception changes none of the four tables; a completed call appends exactly one audit row with the decision, reason and subject it answers with; a refusal on the token changes nothing else; a later refusal at most its own counter; an issue adds one effect and, of one live unspent approval, sets only `consumed_at` |
| `Effects.NeverLostAlone` | src/agent_authz_broker/effects.py:294-319 | A call that runs alone is never told its approval was consumed, and is rate limited only when its position is past its limit |
| `Store.Database.CallTool` | src/agent_authz_broker/effects.py:124-364 | One call, from the bearer string on: verification, then the transaction statement by statement. The verdict it acts on has exactly the reason and the published scopes the token calls for, and its decision, reason, approval and every row it leaves are spelled out on the tables it found; what it answers is what it records |
| `Store.Database.Transact` | src/agent_authz_broker/effects.py:169-364 | The transaction, spelled out on the tables it found: a refused verdict is answered with its own reason; `rate_limited` past the ceiling; a reversible tool allowed; otherwise allowed exactly if an unspent, unexpired approval of this act is on file, and refused `approval_expired` or `approval_required` exactly as matching ones are all expired or absent; it leaves exactly the rows that say so, and where it raises, every table as it was |
| `Answers.CompletedSays` | src/agent_authz_broker/effects.py:182-353 | The decision table of a completed call, and every column of every row it writes, with no reference to how the call is carried out |
| `Answers.RaisedSays` | src/agent_authz_broker/effects.py:256-262 | A call raises only past its gates, and only for an amount that is no number or fits no `integer` column, or on tables where an effect names an unspent approval; then nothing is changed |
| `Answers.CallCarries` | src/agent_authz_broker/effects.py:159-167 | The verdict a transaction acts on is the token's: its reason, subject, token, tool scope, effective scopes and their stored text; and the arguments, moment and identifiers are the request's |
| `Store.Database.SpendAndIssue` | src/agent_authz_broker/effects.py:260-353 | Past the gates, alone on the tables: an answer of the lookup, and either the approval spent, the effect and the audit row together, or none of them |
| `Store.Database.Issue` | src/agent_authz_broker/effects.py:292-353 | With an approval found earlier, on tables that may have moved since: answered and recorded `approval_already_consumed` exactly if the approval is spent or gone; rolled back with nothing changed exactly if it is unspent and an effect names it all the same; otherwise spent, with its effect and its audit row |
| `Store.Database.FindMatchingApproval` | src/agent_authz_broker/approvals.py:88-127 | Whatever the table holds and in whatever order, the row returned matches all four bindings, is unspent, is live, and no matching row expires later; `expired` is reported if and only if there are matching rows and all of them are at or past their expiry |
| `Store.Database.Select` | src/agent_authz_broker/approvals.py:108-120 | Exactly the matching unspent rows, latest expiry first |
| `Store.Database.ConsumeApproval` | src/agent_authz_broker/approvals.py:130-153 | Succeeds exactly when the row is there and unspent, and sets that one column of that one row |
| `Store.Database.CreateApproval` | src/agent_authz_broker/approvals.py:56-85 | Adds the row, or is refused by the table for a taken id or an amount that is not positive or does not fit, and changes nothing then |
| `Store.Database.ConsumeQuota` | src/agent_authz_broker/ratelimit.py:51-87 | Returns one more than the bucket's count and stores it, in no other bucket |
| `Store.Database.Record` | src/agent_authz_broker/effects.py:57-88 | Appends one audit row, under an identifier just drawn, with the call's verdict, its effective scopes as text and its ruling; every other row is kept |
| `Store.Database.RecordTransportRefusal` | src/agent_authz_broker/effects.py:91-121 | Appends one refusal, with the tool `-`, the hardened policy, the reason, no scopes and the subject and token it is given, or, where the identifier is taken, changes nothing; no row is ever overwritten |
| `Authz.EffectiveScopes` | src/agent_authz_broker/authz.py:53-77 | The narrowing loop leaves exactly the leaf's scopes that every link held |
| `Authz.InsertNarrows` | src/agent_authz_broker/authz.py:56-63 | A hop inserted anywhere leaves exactly what was effective before and the hop also holds |
| `Authz.Authorize` | src/agent_authz_broker/authz.py:80-153 | Allowed if and only if the token is authentic and current, the tool known, the audience this server's where the policy asks, and the tool's scope claimed by the leaf and, where the policy asks, held by every link; an allowed verdict names its subject, and exactly the refusals carry a reason |
| `Authz.VerdictSays` | src/agent_authz_broker/authz.py:106-153 | The whole verdict: each refusal reason in exactly its situation and order (verification's own, unknown tool, expired, other audience, scope not effective); a scope is reported effective if and only if the leaf claims it and, where the policy attenuates, every link held it; the subject, the token, the tool's scope and what each link held; and no verdict exactly where an audience check is reached with nothing to check against |
| `Authz.ToolsTake` | src/agent_authz_broker/domain.py:126-137 | Three tools are known, each takes its own scope and no two the same, and exactly `issue_credit` cannot be undone |
| `Authz.HardenedWithinNaive` | src/agent_authz_broker/authz.py:45-50 | What the hardened policy allows the naive one allows, to the same subject, with no fewer effective scopes |
| `Authz.MisaddressedWhateverClaimed` | src/agent_authz_broker/authz.py:141-148 | A token for another server is refused for the same reason whatever scopes and chain it claims, and never for a missing scope |
| `Authz.NaiveBlind` | src/agent_authz_broker/authz.py:48-50 | The naive decision does not depend on the audience or on the chain |
| `Tokens.Chain` | src/agent_authz_broker/tokens.py:60-82 | The walk and the reversal give the nested claims root first, and refuse exactly when some level is not an object with a subject or there are more than ten |
| `Tokens.VerifyToken` | src/agent_authz_broker/tokens.py:85-194 | The checks in their order, with the loop over the keys and the walk over the chain; what comes of each is `Tokens.VerifySays` |
| `Tokens.VerifySays` | src/agent_authz_broker/tokens.py:104-194 | Verification answer by answer, acceptance included: too large or unreadable, `token_malformed`; an issuer not trusted, `issuer_unknown`; no key of the header's identifier, `signature_invalid`; each library failure under the first such key, its reason; a readable payload, its claims |
| `Tokens.DecodedAnswers` | src/agent_authz_broker/tokens.py:157-194 | A decoded payload is refused as `token_malformed` exactly if its `aud` is neither a string nor a list of strings, then as `delegation_malformed` exactly if some level of `act` is broken, and otherwise accepted with every claim it carries |
| `Tokens.AudiencesRead` | src/agent_authz_broker/tokens.py:168-179 | The audiences are those of the `aud` claim item for item, one for a string |
| `Tokens.ScopesRead` | src/agent_authz_broker/tokens.py:46-57 | A scope is read exactly if it is a word of a string, or an item of a list of strings |
| `Tokens.ChainRead` | src/agent_authz_broker/tokens.py:60-82 | A chain is refused exactly if some level of `act` is no object that names its subject or lies beyond the tenth; otherwise link for link what the levels say, from the inside out |
| `Tokens.KeyForFirst` | src/agent_authz_broker/tokens.py:132-138 | The candidate is the first key the header names, and there is none only if no key of the issuer has that identifier |
| `Tokens.AuthenticOnly` | src/agent_authz_broker/tokens.py:113-157 | Accepted claims all come from the payload that one key verified: a trusted key of the very issuer that the unverified body names, with the header's identifier |
| `Tokens.IssuerOwnsKey` | src/agent_authz_broker/tokens.py:141-160 | Where the library checks the issuer it is given, the issuer in accepted claims is trusted and the key that vouches for them is its own |
| `Tokens.OnlyTrustedKeysTried` | src/agent_authz_broker/tokens.py:94-96 | What a token would decode to under any key that is not trusted makes no difference to the answer |
| `TestAuthority.MintDelegated` | src/agent_authz_broker/testauthority.py:124-152 | The loop nests a root-first chain inside out around the base claims |
| `TestAuthority.DelegationRoundTrip` | src/agent_authz_broker/testauthority.py:143-152 | For scopes that are words: a chain of at most ten links reads back as the same subjects in the same order with the same scope sets, and a longer one is refused (section 4.1 of RFC 8693) |
| `TestAuthority.BaseReads` | src/agent_authz_broker/testauthority.py:78-96 | Every claim that is minted: issuer, subject, audience, issue and expiry times, identifier and scope set; nothing besides but the chain, which is there exactly if one was asked for |
| `Delegation.NothingSkipped` | src/agent_authz_broker/tokens.py:60-82 | For every payload, an accepted chain has one link for each nested node, root first, and a scope is effective if and only if the leaf and every node claims it |
| `Delegation.UnreadableEmpties` | src/agent_authz_broker/tokens.py:46-57 | One unreadable scope claim anywhere in the chain leaves no authority at all |
| `Delegation.SpliceNarrows` | src/agent_authz_broker/tokens.py:66-82 | Nesting one more node in at any depth of the claims keeps exactly what that node also claims |
| `Delegation.StoredScopesRecoverable` | src/agent_authz_broker/effects.py:82 | The stored text gives the effective set back whenever the leaf or any one node spelled its scopes as a string |
| `Delegation.ListScopesMayNot` | src/agent_authz_broker/tokens.py:55-56 | A list of scopes that holds any item that is not a word never reads back from its stored text |
| `ScopeText.SplitJoin` | src/agent_authz_broker/tokens.py:54 | Splitting undoes joining on words (section 3.3 of RFC 6749) |
| `ScopeText.SplitApart` | src/agent_authz_broker/tokens.py:54 | What splitting is: no word in nothing, one word in text without separators, and at any separator the words before and the words after come apart |
| `ScopeText.RenderRoundTrip` | src/agent_authz_broker/demo/matrix.py:227 | The sorted, space-joined form of a scope set splits back to the set if and only if every scope is a word |
| `ScopeText.SortedAscends` | src/agent_authz_broker/effects.py:82 | The stored scopes are in code point order |
| `ScopeText.JoinSays` | src/agent_authz_broker/effects.py:82 | One space between any two scopes, and none before or after |
| `Transport.BrokerTokenVerifier.VerifyToken` | src/agent_authz_broker/mcp_server.py:222-294 | Admits exactly the authentic tokens addressed to this server, with the attenuated scopes sorted; a refusal appends its audit row with its reason, stays a refusal where the row cannot be written, and overwrites nothing |
| `Transport.ScreenSays` | src/agent_authz_broker/mcp_server.py:241-274 | A token is let through exactly if it is authentic and this server is among its audiences, and the report is about that token, field by field, its scopes in order and each once; a refusal names a subject and a token only where they are established |
| `Transport.VerifyAnswers` | src/agent_authz_broker/tokens.py:85-194 | Verification answers with one of its own five reasons or with claims that have not expired |
| `Transport.TransportAgrees` | src/agent_authz_broker/mcp_server.py:241-274 | At one instant, the transport refuses exactly when the hardened decision refuses for a verification or audience reason, with the same reason, subject and token id; otherwise the decision allows a tool if and only if its scope is among those reported |
| `Matrix.Run` | src/agent_authz_broker/demo/matrix.py:292-327 | What a run reports is what some serial history of the scenario leaves from an empty database: the last call's decision, the effect count, and every audit row with its scopes split |
| `Matrix.BuildMatrix` | src/agent_authz_broker/demo/matrix.py:330-425 | One genuine row for each scenario, the totals of the rows, the attacks and the breaches counted as they are, an empty database at the end, and the hardened server never behind: no more effects, no more attacks permitted |
| `Matrix.SumCounts` | src/agent_authz_broker/demo/matrix.py:387-404 | The totals count the attacks, and under each policy the attacks that left more effects than they should |
| `Matrix.TotalsCompare` | src/agent_authz_broker/demo/matrix.py:387-404 | For any genuine rows: hardened effects at most naive effects, attacks permitted by the hardened server at most those by the naive one, at most the attacks |
| `Matrix.NoMoreThanApproved` | src/agent_authz_broker/demo/matrix.py:180-190 | However often a token is presented, a scenario leaves at most one effect for each approval it arranged, under either policy |
| `Matrix.ShowsEffective` | src/agent_authz_broker/demo/matrix.py:227 | The scopes shown for a call are its effective scopes in order, when they are words |
| `Redaction.NeverNamed` | frontend/src/lib/server/source.ts:81-89 | For every message, and every configured origin that cannot be laid over the replacement text so that they agree where they overlap, the redacted message contains neither spelling, joins included; an origin of slashes alone is covered too |
| `Redaction.SettingNeverNamed` | frontend/src/lib/server/source.ts:81-89 | However an operator spells the setting, with blanks around it and slashes after it: the address is in the redacted message neither with its slashes nor without them, where it cannot be laid over the replacement text |
| `Redaction.SettingReads` | frontend/src/lib/server/source.ts:31-35 | The origin that is fetched from is the address itself, without the blanks and the slashes, and there is none where the setting is blank |
| `Redaction.RestKept` | frontend/src/lib/server/source.ts:86-88 | Nothing but the address goes: the redacted message is the message's own pieces in order, with the replacement between them |
| `Redaction.UnsetUntouched` | frontend/src/lib/server/source.ts:82-83 | Where nothing is set no message is changed |
| `Leaks.HiddenIff` | frontend/src/lib/server/source.ts:68-89 | The exact condition: an origin is hidden in every message if and only if it cannot be laid over the replacement text so that they agree where they overlap, for origins that neither open with `<` nor both open with an ending of the replacement and close with `>` |
| `Leaks.AddressHiddenIff` | frontend/src/lib/server/source.ts:58-89 | The same for every origin that can be an absolute http address: its first character is not one of the replacement text, or is an `h` that no `e` follows |
| `Leaks.BracketlessOverlaps` | frontend/src/lib/server/source.ts:47 | An origin without angle brackets can be laid over the replacement text exactly if it is a piece of it |
| `Leaks.BracketLeaks` | frontend/src/lib/server/source.ts:47 | For every origin that opens with `>` and has no other bracket, a message whose redacted form still names it |
| `Leaks.BracketLeaksAtEnd` | frontend/src/lib/server/source.ts:47 | For every origin that ends in `<` and has no other bracket, absolute addresses among them, a message whose redacted form still names it |
| `Redaction.OthersUntouched` | frontend/src/lib/server/source.ts:81-89 | A message that names the origin in neither spelling is unchanged |
| `Redaction.SplitJoin` | frontend/src/lib/server/source.ts:88 | Splitting and joining with the separator itself is the identity |

## Left out

- Cryptography and the JWT library: a token carries the library's answers about it (its size, its header, its unverified body, and the verified decode under each key). Claims that the library requires and validates are typed; the others are as the token spells them. `Transport` assumes that the library never returns the payload of an expired token.
- Leaks.HiddenIff: says nothing of origins that open with `<`, or that open with an ending of the replacement text and close with `>`; no absolute http address is one. For these `Redaction.NeverNamed` is the half that holds: no overlap, no leak.
- Store.Database.SpendAndIssue: runs alone on its tables, so that the approval it finds is still there when it spends it; `Store.Database.Issue` has the refusal for one that is not, and `Machine` the race.
- Matrix.Run: keeps the audit rows by identifier, not in the order of the server's timestamps, and leaves out the console's list of approvals.
- Matrix.BuildMatrix: both runs of a scenario are given the same moments and identifiers, where the program reads the clock for each and mints a token for each; with clocks of their own an approval could expire between the two runs. A scenario's approvals and calls are parameters, so the fixed list of six is not part of the model, and neither are the console lists of approvals, chains and the order of the audit trail.
- Authz.Authorize: a raw string in the place of claims, which raises a type error, cannot be written.
- The route that resets the demonstration locks in the opposite order and deletes approvals under running calls; deadlock freedom and "consumed means consumed by another call" are claims without it.
- Granting an approval is one atomic step, and who may grant is not part of the model.
- A call keeps the moment captured at its start, so it may commit after an approval's expiry by the wall clock; every claim about expiry is about that moment.
- The transport swallows any failure to write its audit row; here only a taken identifier makes it fail.
- Random identifiers are inputs that do not collide.
- Column lengths, NUL characters and the overflow of a counter; an amount that does not fit an `integer` is modelled, as a call that raises.
- Timestamps are whole microseconds; the rounding of floating-point timestamps, and columns that the server stamps (`created_at`, `at`), are left out. JSON numbers are integers.
- Strings are sequences of code points; encoding and normalisation are left out.
- HTTP routes, the MCP wiring with its own tools and its rendering of an outcome for the wire, host allowlist, configuration, connection strings, the console's components, shape parsers and fixtures, and the fetch itself: plumbing over libraries not modelled here.
- The lookup of an approval by its id and the listing of approvals, tokens minted straightforwardly or with a deliberate flaw: they would only add easy members.
