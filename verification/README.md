# hoodalpha control plane: a verified model

hoodalpha's implemented part is a control plane. It authenticates Telegram users and Mini
App payloads, onboards accounts, links wallets and verifies them against the chain,
enforces per-wallet limits, throttles commands and tracks the chain head. This project
models those protocols in Dafny 4.11 and proves what they promise under repeated
delivery, concurrent processes, crashes and elapsed time.

`dafny verify dfyconfig.toml` checks everything.

## How it is organised

| file | modules | component |
|---|---|---|
| Basics.dfy | Results, Transactions, Numbers, Int64, Clock, Counting | results, 64-bit integers, durations, counting |
| CheckString.dfy | Text, CheckString | the text Telegram signs |
| InitData.dfy | ReplayGuards, InitData, ReplayRuns | Mini App payload verification and replay protection |
| Policy.dfy | Policies | wallet limits and the NUMERIC columns that store them |
| Identifiers.dfy | Identifiers | addresses and hashes |
| Wallets.dfy | WalletTables | wallet tables, their constraints and statements |
| WalletRuns.dfy | WalletRuns | every interleaving of the wallet use cases |
| WalletHistory.dfy | WalletHistory | the audit trail as a history of policies |
| WalletService.dfy | WalletService | repository and service objects, racing verifications |
| Onboarding.dfy | Onboarding | accounts, Telegram identities, first contact |
| RateLimits.dfy | RateLimits | the fixed-window limiter |
| Commands.dfy | Commands | reading a command from a message |
| Pipeline.dfy | Pipeline | every interleaving of dispatched updates, and its books |
| Gates.dfy | Gates | who reaches a handler, and how often |
| Router.dfy | Router | the router as an object |
| HeadStore.dfy | HeadStore | the persisted chain head |
| Decimal.dfy | Decimal | decimal printing |
| Backoff.dfy | Backoff | retries and delays |

Concurrent behaviour is a state machine: a value for the shared state, a datatype of
steps, a total function `Apply` for one step and `Exec` for a sequence of them. A step
that is not enabled changes nothing, so a statement about `Exec` over all step sequences
is a statement about every interleaving. Objects whose methods update fields are classes;
their contracts name the same functions the state machines are built from, the
`...CallIsRun` lemmas say that a call nothing interrupts is a run of its own steps, and
the `...Answers`, `...IsExact` and `...IsSpelled` lemmas spell out what those functions
compute, case by case and field by field. An
open database transaction is a state of its process: its rows are invisible to others, the
keys it has inserted make others wait, and only its commit publishes anything.

Conventions: a string is a sequence of code points, whose order on valid UTF-8 is Go's
byte order. Instants and durations are whole nanoseconds. Generated UUIDs are numbers that
never repeat. Percentages and amounts are exact numbers. Random identifiers, clock
readings, chain answers, and whether a store, an audit write or a commit succeeds are
parameters of the step that depends on them.

## Main results

- **Replay protection is exact.** Over every run of any number of replicas sharing one
  guard and one clock, a payload is accepted at most once, ever, if and only if the clock
  skew, the delay from clock reading to set-if-absent and the fraction of a millisecond
  that the store does not keep of the lifetime together fit in the one-minute margin (or
  the lifetime overflows 64 bits, when the store refuses every entry and nothing is
  accepted). With the default skew of one minute that means no delay at all, a window of
  whole milliseconds and entries that still count at their expiry instant.
  internal/telegram/initdata/initdata.go:257-258 states the margin's purpose without the
  skew; the model follows the code.
- **The guard protects a text, not a signature.** Its key is the hash as sent, while the
  signature check decodes it. Signed fields are accepted at most once if and only if,
  besides the margin, their signature has a single accepted text. With hex decoding that
  ignores letter case and nothing else, that means a hash written without a letter.
- **The signed text** is independent of parameter order and reads back to the fields it
  was made from, so it is injective, on fields without newlines (and names without `=`).
  Among all fields that can be signed a text determines them if and only if there is none,
  or one without `=` in its value whose name has no `=`, or only the one behind a leading
  `hash` or `signature`.
- **The wallet life cycle** holds under every interleaving of link transactions, repeated
  verifications, disables, policy updates and crashes, with activation traced back to the
  evidence that the same process gathered.
- **The audit trail replays to the stored policy**, where the writes of a wallet are all
  recorded and in their order, if and only if no write was stale: none replaced a policy
  that its update had not read.
- **Service and database agree on limits** except at exactly characterised rounding and
  overflow edges.
- **SetStatus**, called for pending to active, would activate a wallet without a proof of
  verification. internal/domain/wallet.go:67-69 says the transition table prevents that;
  the code does not, and its only caller never asks for it.
- **First contact** keeps accounts and Telegram IDs one-to-one under every interleaving
  and every change of the allowlist. Each identity was authorized while the allowlist held
  it. While one is off the list, its verdicts plus its transactions still open never
  increase, and its row changes only at the cost of one of these; with none left over it
  is shut out, its row untouched.
- **The command pipeline** keeps its books under every interleaving of dispatched updates,
  transactions and changes of standing, from any sound accounts, whoever is on the
  allowlist now: invocations are the audited ok and failed commands plus the handlers in
  flight, every admitted command closes once, and every handler served a human,
  allowlisted caller whose account was active while that command was being processed, on
  an admission and an allowed limiter call that no other command used. From a suspension
  until it is lifted, an account's invocations plus its commands that had already found it
  active never increase.
- **The rate limit** gives each identity exactly its quota in every aligned window if and
  only if the window is whole seconds (or one nanosecond more, where counters live through
  their expiry instant). With any other window it fails soon: within two windows of any
  instant, or, for windows below a second, within as many as it takes until two begin in
  one second. A window is configurable in any unit, and EXPIRE counts seconds.
- **Delays**: retry waits and the queue's delay are right exactly while the product fits 64
  bits, and beyond that where what is left keeps its sign and still reaches the cap. The
  subscriber's are right exactly if base and cap are below 2^62 nanoseconds.

## Model

| member | source | states |
|---|---|---|
| `CheckString.CollectKeepsFirstValue` | internal/telegram/initdata/initdata.go:161-190 | collecting parameters and taking the first value of a name is the earliest value in the parameter list, for all names |
| `CheckString.SignedKeys` | internal/telegram/initdata/initdata.go:174-181 | whatever order the map yields its keys in, the loop and the sort produce the one sorted listing of the names other than `hash` and `signature` |
| `CheckString.ListingIsUnique` | internal/telegram/initdata/initdata.go:174-181 | a set of names has only one sorted listing |
| `CheckString.BuildCheckString` | internal/telegram/initdata/initdata.go:183-191 | the builder loop of Verify leaves the canonical text of the signed fields |
| `CheckString.BuildThirdPartyString` | internal/telegram/initdata/initdata.go:308-325 | the builder loop of VerifyThirdParty leaves the prefixed text of the signed fields |
| `CheckString.ThirdPartyExtendsCanonical` | internal/telegram/initdata/initdata.go:317-325 | the third-party text is prefix, newline and canonical text when a field is signed, and the bare prefix otherwise |
| `CheckString.OrderIndependent` | internal/telegram/initdata/initdata.go:171-191 | parameter lists with the same first values for signed names have the same signed text |
| `CheckString.DecodeCanonical` | internal/telegram/initdata/initdata.go:171-191 | splitting at newlines and first `=` reads the canonical text of clean fields back to the same map |
| `CheckString.CanonicalIsInjective` | internal/telegram/initdata/initdata.go:171-191 | two clean field maps with the same text are equal |
| `CheckString.TextDeterminesFields` | internal/telegram/initdata/initdata.go:174-191 | for all maps of signable fields: no other such map has the same text if and only if the map is empty or has one field, with no `=` in its value and none in its name but one behind a leading `hash` or `signature` |
| `CheckString.SignedFieldsAreAllSigned` | internal/telegram/initdata/initdata.go:174-181 | the fields Verify signs are such a map, and every such map arises |
| `CheckString.CanonicalIsSpelled` | internal/telegram/initdata/initdata.go:174-191 | the signed text is one `name=value` line per field, joined by newlines, in ascending lexicographic order of names |
| `CheckString.LessIsLexicographic` | internal/telegram/initdata/initdata.go:181 | the order of names is the lexicographic one: a proper prefix, or the smaller character where two first differ |
| `ReplayGuards.KeyIsInjective` | internal/persistence/redis/guard.go:45-47 | different hash strings have different guard keys |
| `ReplayGuards.ReplayGuard.constructor` | internal/persistence/redis/guard.go:20-25 | the default key prefix |
| `ReplayGuards.ReplayGuard.FirstUse` | internal/persistence/redis/guard.go:31-43 | for any lifetime: set-if-absent with expiry in whole milliseconds, or without one where the client library sends none; a negative lifetime and an unanswered command are errors to the caller, the latter whether or not it took effect |
| `ReplayGuards.FirstUseAnswers` | internal/persistence/redis/guard.go:31-47 | spelled out for any lifetime: who is first, what is remembered and until when, and the errors |
| `InitData.Configure` | internal/telegram/initdata/initdata.go:125-150 | an empty token is refused; a positive window or skew is kept, any other becomes a day or a minute |
| `InitData.Verifier.Verify` | internal/telegram/initdata/initdata.go:156-269 | every error in its order; the guard is touched only by a payload that passed everything else, under its hash as sent, for the window plus the margin |
| `InitData.VerifyIdentifies` | internal/telegram/initdata/initdata.go:156-247 | a payload gets past the checks with an identity if and only if it is authentic and in its window and that is the person of its earliest `user` field, with a positive identifier; every other datum reported is a field of the payload, named |
| `InitData.AuthenticationIsSpelled` | internal/telegram/initdata/initdata.go:156-217 | the refusals up to the timestamp, in order, over the earliest values of the parameters |
| `InitData.VerifyRefuses` | internal/telegram/initdata/initdata.go:219-240 | the refusals of an authentic payload, in order: expired, in the future, without a user, malformed, not positive |
| `InitData.ExtractionIsSpelled` | internal/telegram/initdata/initdata.go:228-252 | which field each reported datum comes from, and the errors of the `user` field |
| `InitData.GuardAnswers` | internal/telegram/initdata/initdata.go:254-269 | the guard's part spelled out: key, lifetime, who is turned away and every error |
| `InitData.AcceptanceWindow` | internal/telegram/initdata/initdata.go:207-226 | for all 64-bit durations, with saturating subtraction, a payload reaches the guard exactly if genuine and within the skew before or the lifetime after its timestamp (the largest duration being no limit), and what it says does not depend on the clock |
| `ReplayRuns.DeploymentIsWindowed` | internal/telegram/initdata/initdata.go:207-247 | Verify's own checks are such a windowed screen |
| `ReplayRuns.RunKeepsInv` | internal/telegram/initdata/initdata.go:254-266 | over every run, each use stays inside its window plus delay, accepted entries are never shortened, acceptances under one key are spaced by the entry lifetime, and every entry comes from a use |
| `ReplayRuns.ReplaySafety` | internal/telegram/initdata/initdata.go:219-266 | with enough margin, or an overflowing lifetime, no run accepts a raw payload, or a hash with one timestamp, twice |
| `ReplayRuns.ReplayBreach` | internal/telegram/initdata/initdata.go:219-266 | without it, every payload that passes at all has a run that accepts it twice |
| `ReplayRuns.ReplayProtectionIsExact` | internal/telegram/initdata/initdata.go:219-266 | for all 64-bit durations: at-most-once over all runs if and only if skew, delay and the lost fraction of a millisecond fit the margin, or the lifetime overflows |
| `ReplayRuns.FieldProtectionIsExact` | internal/telegram/initdata/initdata.go:193-266 | the signed fields are accepted at most once over all runs if and only if, besides the margin, genuine payloads with those fields carry one hash text |
| `ReplayRuns.SecondHashTextPasses` | internal/telegram/initdata/initdata.go:193-266 | two hash texts over the same signed fields are both accepted, whatever the margin |
| `InitData.OtherHashTextIsGenuine` | internal/telegram/initdata/initdata.go:193-205 | another text that decodes to the same signature, over the same signed fields, makes a genuine payload |
| `ReplayRuns.InjectiveDecodingSuffices` | internal/telegram/initdata/initdata.go:197-205 | if a signature had one text only, so would every payload |
| `ReplayRuns.LettersDecide` | internal/telegram/initdata/initdata.go:193-266 | with hex decoding that ignores letter case and nothing else, and enough margin, the signed fields of a payload are accepted at most once over all runs if and only if its hash contains no letter |
| `ReplayRuns.VerifyCallIsRun` | internal/telegram/initdata/initdata.go:156-269 | an uninterrupted Verify is a run of begin, elapsed time and finish, accepted exactly when the call succeeds |
| `ReplayRuns.DefaultSkew` | internal/telegram/initdata/initdata.go:129-137 | the default skew fits exactly with zero delay, entries alive through expiry and a window of whole milliseconds |
| `ReplayRuns.RejectedPresentationsCostNothing` | internal/telegram/initdata/initdata.go:254-266 | while no use of a hash reached the store, the next answered presentation is accepted, whatever was rejected before |
| `Policies.Validate` | internal/domain/wallet.go:170-194 | the error list is the report of broken bounds in order |
| `Policies.ReportIsExact` | internal/domain/wallet.go:170-194 | a bound is reported exactly when it is broken, and nothing exactly when the policy is valid |
| `Policies.ReportIsInOrder` | internal/domain/wallet.go:170-194 | broken bounds are reported in the order of the fields |
| `Policies.RoundingIsTight` | migrations/00005_users_and_wallets.sql:120-126 | column rounding moves a value at most half a unit and is idempotent |
| `Policies.ChecksAreTheBounds` | migrations/00005_users_and_wallets.sql:136-149 | the table's CHECK constraints hold exactly when Validate reports nothing |
| `Policies.StoreIsExact` | migrations/00005_users_and_wallets.sql:120-149 | a valid policy is refused exactly at the rounding and overflow edges; otherwise the stored row is its rounding, again valid, and would be stored unchanged |
| `Policies.StoredFields` | internal/persistence/postgres/wallets.go:182-191 | field by field, what a successful store leaves: counts and switches as given, each percentage to thousandths and the liquidity to hundredths, ties away from zero |
| `Policies.UnitsAreUnique` | migrations/00005_users_and_wallets.sql:120-126 | such a value is unique, so the stored row is determined |
| `Identifiers.ParseIsCanonical` | internal/domain/chain.go:40-49 | a parsed address or hash meets the table's format check and parses to itself |
| `Identifiers.ParseIsExact` | internal/domain/chain.go:40-49 | a text parses to a value if and only if, between white space, it is `0x` and the value's digits, each written as it is or as its capital |
| `Identifiers.AddressesAndHashes` | internal/domain/chain.go:40-72 | addresses have forty digits and hashes sixty-four |
| `Identifiers.SpaceIsSpelled` | internal/domain/chain.go:43-49 | the white space that is trimmed, character by character |
| `Identifiers.ParseForgetsWriting` | internal/domain/chain.go:43-49 | texts that parse give the same result if and only if stripping white space from their ends leaves character-by-character case variants of each other |
| `Identifiers.WritingIsIgnored` | internal/domain/chain.go:40-49 | such texts parse alike, or fail alike, unless they differ in the case of the prefix's `x` |
| `Identifiers.PaddingIsIgnored` | internal/domain/chain.go:43-49 | surrounding white space never changes the result |
| `WalletTables.LinkKeepsTables` | internal/persistence/postgres/wallets.go:34-78 | the link transaction, however it ends, keeps all constraints, one policy per wallet and every existing row |
| `WalletTables.MarkKeepsTables` | internal/persistence/postgres/wallets.go:109-122 | so does the guarded update, which moves a row only forward |
| `WalletTables.DisableKeepsTables` | internal/persistence/postgres/wallets.go:139-150 | so does the write of a disable, which is never refused and changes the status of that row only |
| `WalletTables.UpdateKeepsTables` | internal/persistence/postgres/wallets.go:178-199 | so does a policy update, which touches no wallet row |
| `WalletRuns.StepKeepsInv` | internal/application/wallet.go:79-303 | every step of every use case keeps the invariant of tables, processes and history and only moves rows forward |
| `WalletRuns.RunKeepsInv` | internal/application/wallet.go:79-303 | so every reachable state satisfies it |
| `WalletRuns.WalletLifecycle` | internal/domain/wallet.go:38-81 | between any two moments of any run: identity fixed, status pending to active to disabled only, disabled for good, `verified_at` set at most once, absent while pending, present while active |
| `WalletRuns.StatusMoves` | internal/persistence/postgres/wallets.go:109-150 | a single step changes a status only by the guarded update of a process that has checked this wallet or by the write of a disable |
| `WalletRuns.ActivationNeedsEvidence` | internal/application/wallet.go:129-166 | a wallet has a proof exactly if one process activated it, once, after that process saw the wallet's chain ID and then read its balance |
| `WalletRuns.OneActiveBot` | migrations/00005_users_and_wallets.sql:101-103 | at most one active bot wallet per account and chain in every reachable state |
| `WalletRuns.NoDuplicateLink` | internal/persistence/postgres/wallets.go:46-53 | two links of one user on one chain never both succeed for addresses that differ only in case or padding |
| `WalletRuns.PolicyIsOwners` | internal/persistence/postgres/wallets.go:31-68 | every wallet has exactly one policy, within bounds, and it is the last one its owner stored or the rounded defaults |
| `WalletRuns.TradingNeedsOwner` | internal/application/wallet.go:88-93 | trading is on only after the wallet's own owner stored a policy that enables it |
| `WalletRuns.OnlyOwnerChangesPolicy` | internal/application/wallet.go:242-274 | a step changes a stored policy only as the write of an update by the owner, to the rounding of what was asked for |
| `WalletHistory.AuditTrailIsExact` | internal/application/wallet.go:263-285 | where the writes of a wallet are all recorded and in their order, the recorded changes chain from the rounded link-time policy to the stored one if and only if no write was stale, and otherwise never replay again |
| `WalletHistory.AuditTrailReproducesPolicy` | internal/application/wallet.go:263-285 | in particular they do when updates of the wallet do not overlap and are all recorded |
| `WalletHistory.ReplayedMeans` | internal/application/wallet.go:276-281 | in a trail that replays, each `before` is the rounding of the previous `after` |
| `WalletHistory.OverlapBreaksTrail` | internal/application/wallet.go:263-281 | such stale writes happen: two updates that both read before either writes leave a trail that does not replay, from any state, whenever the first changed anything |
| `WalletService.WalletRepo.Link` | internal/persistence/postgres/wallets.go:34-78 | validation, insert, insert and commit with every error: a failed begin or insert, a violated constraint, a rollback, a commit whose answer is lost |
| `WalletService.WalletRepo.MarkVerified` | internal/persistence/postgres/wallets.go:109-122 | promotes a pending wallet whose slot is free; no matching row is no error |
| `WalletService.WalletRepo.SetStatus` | internal/persistence/postgres/wallets.go:125-150 | read, transition test and write, with every error |
| `WalletService.WalletRepo.UpdatePolicy` | internal/persistence/postgres/wallets.go:178-199 | stores the rounding or leaves the row untouched |
| `WalletService.WalletService.Link` | internal/application/wallet.go:79-123 | outcome, audit event and queued verification of a link |
| `WalletService.WalletService.Verify` | internal/application/wallet.go:129-177 | outcome and audit event of a verification for every chain answer |
| `WalletService.WalletService.UpdatePolicy` | internal/application/wallet.go:242-286 | ownership, validation, store and the recorded before and after |
| `WalletService.WalletService.Disable` | internal/application/wallet.go:289-303 | ownership, status change and record |
| `WalletService.LinkAnswers` | internal/application/wallet.go:79-123 | Link spelled out: the first fault in order is the error, stores nothing and is recorded as rejection or failure; without one, the rows stored, the event and the result for every end of the transaction |
| `WalletService.VerifyAnswers` | internal/application/wallet.go:129-177 | Verify spelled out: the error and event of every chain answer, the activation of a pending wallet whose slot is free, and an unchanged wallet otherwise |
| `WalletService.UpdatePolicyAnswers` | internal/application/wallet.go:242-286 | UpdatePolicy spelled out: not found, not owned, invalid, refused, or stored with the old and the requested policy on record |
| `WalletService.SetStatusAnswers` | internal/persistence/postgres/wallets.go:125-150 | SetStatus spelled out over current and next status and the bot slot: which moves are made, what each leaves, the proof cleared on the way back to pending, and every error |
| `WalletService.DisableAnswers` | internal/application/wallet.go:289-303 | the owner can always disable, whatever the status; only that status changes, and it is recorded |
| `WalletService.SetStatusKeepsTables` | internal/persistence/postgres/wallets.go:125-150 | SetStatus keeps every invariant for all statuses if and only if it is not asked to turn a pending wallet active |
| `WalletService.SetStatusActivatesUnproved` | internal/domain/wallet.go:67-81 | asked that at a free slot, it succeeds and leaves an active wallet without proof |
| `WalletService.VerifyCallIsRun` | internal/application/wallet.go:129-177 | an uninterrupted verification is a run of its four steps |
| `WalletService.DisableCallIsRun` | internal/application/wallet.go:289-303 | an uninterrupted disable is a run of its three steps |
| `WalletService.UpdatePolicyCallIsRun` | internal/application/wallet.go:242-286 | an uninterrupted policy update is a run of its four steps |
| `WalletService.LinkCallIsRun` | internal/application/wallet.go:79-123 | an uninterrupted link is a run of its three steps, whatever the database does |
| `WalletService.LinksInTheWay` | internal/persistence/postgres/wallets.go:39-56 | a link waits only for another open link of the same account, chain and address |
| `WalletRuns.LinkIsAtomic` | internal/persistence/postgres/wallets.go:31-78 | under every interleaving with open link transactions, rows appear in pairs and only at a link's commit: a pending wallet without proof and the rounded defaults with trading off |
| `WalletService.LinkStoresBothOrNeither` | internal/application/wallet.go:79-123 | a link that fails stores neither row, unless only the answer of its commit was lost; one that succeeds stores both |
| `WalletService.ActivationIsExact` | migrations/00005_users_and_wallets.sql:99-103 | a checked pending wallet is activated exactly if no other active bot wallet holds its slot; otherwise nothing changes |
| `WalletService.RaceHasOneWinner` | internal/persistence/postgres/wallets.go:109-122 | of two verifications that both passed their checks for one free slot, the first to write activates its wallet and the second changes nothing |
| `WalletService.LoserCanRetry` | internal/application/wallet.go:164-166 | a losing verification changes no row, and delivered again after the winner was disabled it activates its wallet |
| `Onboarding.UserRepo.EnsureTelegramUser` | internal/persistence/postgres/users.go:30-95 | creates account and link on first contact, refreshes afterwards, leaves nothing without a commit, and reports an error if the commit's answer is lost |
| `Onboarding.EnsureAnswers` | internal/persistence/postgres/users.go:30-95 | spelled out: whose account is created, the profile stored at every contact, all other rows unchanged, and what the caller is told for every end of the transaction |
| `Onboarding.HeldIsSpelled` | migrations/00005_users_and_wallets.sql:33-51 | an insert waits only for another open transaction that has inserted the same Telegram ID |
| `Onboarding.StepKeepsInv` | internal/persistence/postgres/users.go:30-95 | every statement of every open transaction keeps rows, open transactions and log consistent and no binding changes |
| `Onboarding.IdentitiesAreOneToOne` | migrations/00005_users_and_wallets.sql:33-51 | over every interleaving and every change of the allowlist, Telegram IDs and accounts are one-to-one, no account is without an identity, and a first contact is reported at most once per ID |
| `Onboarding.IdentitiesWereAllowed` | internal/application/onboarding.go:51-66 | every identity that has a row was authorized in a period whose allowlist held it |
| `Onboarding.RevocationBars` | internal/application/onboarding.go:56-64 | whatever is open when an ID leaves the allowlist: while it is off it, its verdicts plus its open transactions never increase, nor do its new accounts plus these, and its row changes only at the cost of an open transaction |
| `Onboarding.RevokedIsShutOut` | internal/application/onboarding.go:56-64 | so with none left over, its row is neither created nor refreshed and nobody is admitted under it |
| `Onboarding.BindingsAreForever` | internal/application/onboarding.go:51-91 | a binding never changes, whatever the allowlist, and whoever is admitted is admitted as the bound account |
| `Onboarding.EnsureCallIsRun` | internal/persistence/postgres/users.go:30-95 | an uninterrupted transaction is a run of its steps, with `created` reported exactly when it created |
| `RateLimits.RateLimiter.Allow` | internal/persistence/redis/guard.go:69-94 | for any window: increment and expiry of the aligned window's counter, the remaining budget, and failing open |
| `RateLimits.AllowAnswers` | internal/persistence/redis/guard.go:69-94 | after any calls: no positive limit allows nothing; a store that does not answer lets the call through; otherwise allowed within the limit, with the limit less the window's calls remaining |
| `RateLimits.AllowIsSpelled` | internal/persistence/redis/guard.go:73-94 | for any window and counters: which counter is read, what is left under it and until when, and the answer |
| `RateLimits.KeyIsSpelled` | internal/persistence/redis/guard.go:73 | a counter is kept under the Unix second its window starts in |
| `RateLimits.CounterNeverLapses` | internal/persistence/redis/guard.go:73-79 | in a steady window the counter holds the number of the window's calls and outlives it |
| `RateLimits.WindowQuota` | internal/persistence/redis/guard.go:69-94 | each identity gets exactly the smaller of its calls and the limit in each aligned window |
| `RateLimits.WindowQuotaExactlyWhen` | internal/persistence/redis/guard.go:69-94 | over all calls in a stretch of the horizon's length from any instant, that holds if and only if the window is whole seconds, or a nanosecond more with counters alive through expiry |
| `RateLimits.UnsteadyWindowFails` | internal/persistence/redis/guard.go:73-79 | for every other window and limit, some calls within the horizon of any instant get more or less than their quota: two windows if they last a second or more, otherwise the windows until two begin in one second |
| `RateLimits.IntervalQuota` | internal/persistence/redis/guard.go:49-53 | any stretch of one window length contains at most twice the limit of allowed calls |
| `Router.Configure` | internal/telegram/router.go:86-104 | a positive limit or window is kept, any other becomes twenty or a minute, and the defaults make a steady window |
| `Router.Router.Authorize` | internal/application/onboarding.go:51-91 | allowlist before any write, then account and standing, with the recorded events |
| `Router.Router.Dispatch` | internal/telegram/router.go:148-231 | the effect of one update, from its text on, on accounts, counters, audit log and handler invocations |
| `Router.DispatchIgnores` | internal/telegram/router.go:148-160 | chatter, bots and invalid identifiers have no effect at all |
| `Router.DispatchRefuses` | internal/telegram/router.go:162-181 | a caller off the allowlist leaves one record and nothing else; an error leaves what its commit left |
| `Router.DispatchServes` | internal/telegram/router.go:162-231 | an allowlisted caller: one record if suspended; if active, exactly the closing event that limiter, command table and handler decide, and the handler invoked exactly for ok and failed |
| `Router.DispatchFailsOpen` | internal/telegram/router.go:183-201 | with the limiter's store down, a registered command of an active caller reaches its handler whatever was counted |
| `Router.DispatchCallIsRun` | internal/telegram/router.go:148-231 | an uninterrupted dispatch is a run of its eleven steps |
| `Commands.CommandIsRead` | internal/telegram/router.go:242-261 | every way of typing a command, with any padding, case, bot suffix and arguments, is read as its lower-case name |
| `Commands.CommandIsExact` | internal/telegram/router.go:242-261 | a text is read as a command of a name if and only if it is white space, a slash, that name in any letter case, and nothing, a bot or arguments behind it |
| `Pipeline.AuditAccountsForHandlers` | internal/telegram/router.go:148-231 | over every interleaving, from any accounts and for any selection of identities and commands: handler invocations equal audited ok and failed commands plus handlers in flight, and admitted commands equal closing events plus commands still open; with nothing in flight each admitted command has closed exactly once |
| `Gates.HandlersAreGated` | internal/telegram/router.go:148-208 | every handler that ever ran, over every interleaving and from any sound accounts, was invoked for a registered command of a human on the allowlist, on an admission of them as the account bound to them, and on an allowed limiter call for them |
| `Gates.EvidenceIsSpentOnce` | internal/telegram/router.go:162-201 | no two handler invocations, and no two commands under way, rest on the same admission or the same limiter call |
| `Gates.HandlersServeActive` | internal/application/onboarding.go:66-82 | that account was active while the command was being processed: from some moment at which it was active until the invocation, this very command was under way |
| `Gates.SuspensionBars` | internal/application/onboarding.go:71-82 | from any moment at which an account is suspended until it is made active again, whatever is in flight, its handler invocations plus its commands that had already found it active never increase |
| `Gates.SuspensionHolds` | internal/application/onboarding.go:71-82 | so if none of its commands had found it active, no further handler runs for it |
| `Gates.AccountsStaySound` | internal/application/onboarding.go:51-91 | over every interleaving of dispatches the accounts keep the invariant of first contact, and no binding changes |
| `Gates.HandlerRate` | internal/telegram/router.go:183-201 | with dispatches interleaved in any way, of the answered limiter calls in any stretch of one window length at most twice the limit lead one identity to a handler |
| `HeadStore.SyncStateRepo.SaveHead` | internal/persistence/postgres/syncstate.go:25-49 | the monotone upsert and its refusals, with 64-bit conversion |
| `HeadStore.SaveAnswers` | internal/persistence/postgres/syncstate.go:25-49 | spelled out: exactly a valid hash with a chain from 1 and a height, both below 2^63, is accepted, and the row is replaced exactly by a higher one |
| `HeadStore.HeadReadsBack` | internal/persistence/postgres/syncstate.go:53-74 | what is loaded after any observations is the earliest of the highest blocks seen of the chain, with its number, time and canonical hash, or nothing if nothing acceptable was seen |
| `HeadStore.HeadIsFirstHighest` | internal/persistence/postgres/syncstate.go:21-37 | after any observations the row is that of the earliest of the highest acceptable ones |
| `HeadStore.HeadNeverRewinds` | internal/application/chainsync.go:17-20 | stored heights never decrease and rows never disappear |
| `HeadStore.OrderDoesNotMatter` | internal/queue/tasks/tasks.go:61-75 | with one block per height, reordering and duplication cannot be seen in the stored rows |
| `Decimal.DigitsReadBack` | internal/application/health.go:201-214 | numerals read back to their number and only zero starts with a zero |
| `Decimal.Itoa` | internal/application/health.go:201-214 | never leaves its buffer and prints the numeral of every unsigned 64-bit value |
| `Decimal.Itoa64` | internal/httpapi/miniapp.go:274-294 | prints every signed 64-bit value, the least one as a bare sign |
| `Decimal.PrintedReadsBack` | internal/httpapi/miniapp.go:274-294 | the text reads back to the value if and only if it is not the least one |
| `Decimal.EtherReadsBack` | internal/domain/chain.go:120-129 | the text read as a decimal and scaled by 10^18 is the amount |
| `Decimal.EtherIsInjective` | internal/domain/chain.go:120-129 | different amounts print differently |
| `Decimal.EtherIsTidy` | internal/domain/chain.go:126-128 | never a trailing point, nor a trailing zero behind a point |
| `Decimal.EtherStartsTidily` | internal/domain/chain.go:120-129 | the text starts with a digit, and with a zero only below one ether |
| `Backoff.Do` | internal/chain/retry.go:22-57 | at most one call more than the retries, none after a success or final error, every ending if and only if its reason, and every wait set |
| `Backoff.WaitsAreBounded` | internal/chain/retry.go:45-49 | waits add up to at most five seconds per retry even where the shift wraps |
| `Backoff.WaitExactlyWhen` | internal/chain/retry.go:45-48 | for all backoffs and attempts, a wait is the capped doubled backoff if and only if the product fits 64 bits, or the bit of the backoff that becomes the sign is clear and the bits below it still reach the cap |
| `Backoff.IdealIsSpelled` | internal/chain/retry.go:23-48 | what the waits and delays stand for, with the default of 250 milliseconds and the caps of five seconds and ten minutes |
| `Backoff.DefaultWaits` | internal/chain/retry.go:23-48 | for all attempts, the default waits are right if and only if the attempt is at most 35, or at most 56 with a clear sign bit; 36 gives a negative wait |
| `Backoff.HeadSubscriber.constructor` | internal/chain/subscriber.go:46-67 | default delays |
| `Backoff.HeadSubscriber.RunSession` | internal/chain/subscriber.go:121-172 | one session: every way it ends, the heads it hands on, the last head and the connected flag; only a node on the expected chain is listened to |
| `Backoff.HeadSubscriber.Run` | internal/chain/subscriber.go:87-118 | an empty URL is refused; otherwise the delay before every reconnect, all heads of all live sessions in order, the last one remembered, and disconnected after any session, cancelled or not |
| `Backoff.DeliveredAreOfTheChain` | internal/chain/subscriber.go:130-142 | with an expected chain, no head of a node on another chain is handed on |
| `Backoff.DelayIsCappedPower` | internal/chain/subscriber.go:114-116 | for all positive 64-bit bases and caps, repeated doubling with a cap is one capped power of two at every reconnect if and only if both are below 2^62 |
| `Backoff.DelaysNeverShrink` | internal/chain/subscriber.go:24-26 | delays never shrink if and only if the base does not exceed the cap and the cap is below 2^62 |
| `Backoff.RetryDelayIsExact` | internal/queue/server.go:45-51 | the queue delay is the smaller of 2^n seconds and ten minutes for n up to 33 |
| `Backoff.RetryDelayExactlyWhen` | internal/queue/server.go:45-51 | for all n, it is right if and only if n is at most 33, or at most 54 with a clear sign bit; 34 fails |

## Left out

- HMAC, Ed25519, hex, base64, percent, number and JSON decoding: library code, entering as functions about which nothing is assumed.
- VerifyThirdParty beyond its check string: the remaining checks are those of Verify without freshness and replay.
- Timestamps within 62135596800 seconds of the end of the 64-bit range, which time.Unix wraps: they are refused either way, with another error.
- Entries and counters that the store loses before their expiry, by eviction, a flush or a failover: replay protection and quotas are proved for a store that keeps them.
- Clock drift between hosts, and the store's own clock counting milliseconds: replicas and store share one clock of nanoseconds; the skew covers Telegram's.
- Binary floating point: NaN, infinities and the conversion between float64 and NUMERIC.
- Row timestamps other than `verified_at`, wallet listing order, audit actor names and free-text reasons.
- Database outages at arbitrary statements outside the link and first-contact transactions: a process may stop at any step, which is what its caller sees.
- WalletHistory.AuditTrailIsExact: runs in which a record is lost or overtakes an earlier one; then whether the trail replays depends on which values happen to coincide.
- WalletService.WalletService.Link: the queue is a list of wallet identifiers, delivered any number of times; Asynq itself is not modelled.
- RateLimits.RateLimiter.Allow: key computation and increment happen at one instant, and the counter key is a pair rather than its text.
- Router.Router.Dispatch: replies and logs are not modelled, handlers return without panicking, audit writes succeed, letters beyond ASCII keep their case.
- Backoff.Do: which errors are transient is an input; the classification list is not modelled.
- HTTP routing and rendering, configuration, bootstrap, migrations tooling, partitioning, health aggregation, allowlist parsing and display names: plumbing or easy members.
- Trading features that only the repository's README describes: there is no code.
