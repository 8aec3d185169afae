# Athena: verified protocols, caches, indexers and loops

A Dafny 4.11 model of the parts of Athena whose guarantees hold over whole runs, and of the loops with
an exact meaning. Each component has a model of the code (classes and methods with loops where the Go
code mutates state, functions where it computes) and, where several calls or processes interact, a state
machine whose events carry everything the surroundings may do: interleaving, clock ticks, failed calls,
lost replies, restarts. The main results are statements about every run of those machines.

| Files | Component |
|---|---|
| `RegistrationStore`, `RegistrationRuns`, `RegistrationSecrets` | registration tickets, submission claims with a lease, login sessions, and the secrets behind them |
| `OneTimeStore`, `OneTimeRuns` | rate-limited one-time values behind fixed-window counters |
| `WormExecution`, `WormOrigins` | the wallet proof that authorizes one execution plan, and where an authorization comes from |
| `InboundScanner`, `InboundStore`, `InboundRuns` | the inbound transaction scanner, its checkpoint and its stored rows |
| `Bytes`, `InboundPages` | page tokens and paging through a growing index |
| `SwapScanner`, `Sorting` | swap logs to one row per transaction |
| `AccountAccess` | access aggregates, authorization, and the published snapshot over the durable store |
| `Credentials`, `CredentialRuns` | the account registry, its identity index and API keys |
| `HotMarkets`, `MoverAlerts`, `RealtimeSamples`, `Text` | monitored markets, alert cooldown, recent prices |
| `WebP` | the RIFF/WebP chunk walk |
| `Poller` | the Telegram update loop over a durable offset |
| `LogSync` | chunked log queries and the log cursor |
| `RoundRobin` | selection of API keys and gateways |

`dafny verify dfyconfig.toml` checks the project.

## Assumptions

- A Redis script is one atomic step at one frozen instant; a key is visible while the instant is before its expiry.
- Random identifiers are fresh. SHA-256 is injective, so keys derived from it are indexed by what they are derived from.
- Clocks do not go backwards.
- SQL transactions are atomic. A store call ends as `Delivered`, as `NotReached` (nothing happened), or as
  `ReplyLost` (it took effect and the caller sees an error).
- Prices, scores and volumes are reals. Integers are unbounded; 64-bit wrap-around and the signed 64-bit
  range of database columns are written out where the code meets them.
- Blocks at or below a reported head do not change. A node that answers a log query answers with the logs of
  that range, and it refuses a range whose end is before its start.
- The update poll returns arrived updates in ascending order and leaves none out from the requested offset to
  the last one it returns; updates arrive with growing identifiers.

## Where the code does less than one might expect

Each of these has a lemma with a run or input that shows it and a lemma with the exact condition.

- The expiry of an execution challenge is checked when the challenge is consumed, not when the authorizer is
  called (`WormExecution.LateAuthorizationExists`, `WormExecution.AuthorizationOnTimeIff`,
  `WormExecution.PromptContinuationsIff`).
- Insertion of an inbound transaction skips a hash that is already stored, so the stored rows are the collected
  ones exactly when no hash was collected twice (`InboundRuns.RepeatedHashIsSkipped`, `InboundRuns.StoredRows`).
- An access update whose commit reply is lost leaves the published aggregate one revision behind until the next
  registration (`AccountAccessRuns.LostReplyLags`, `AccountAccessRuns.SnapshotFollowsStore`).
- An API-key call that takes effect in the store while its reply is lost leaves the manager and the store apart for
  the manager's life: a deleted key goes on validating, an issued one never does (`CredentialRuns.LostDeletion`,
  `CredentialRuns.LostIssue`, `CredentialRuns.KeyValidatesIff`).
- A mover alert recorded at a clock value of zero or less counts as never sent (`MoverAlerts.EarlyAlertsAreForgotten`,
  `MoverAlertRuns.RepeatedWarning`). Two markets whose condition identifiers contain colons can share an alert key,
  and then one refresh announces both (`MoverAlerts.ColonsCollide`, `MoverAlertRuns.SharedKeyIsSentTwice`). For
  alerts at positive times the cooldown holds exactly when that does not happen (`MoverAlertRuns.CooledIff`).
- An unflagged VP8X chunk behind all animation chunks hides them (`WebP.MaskedAnimation`, `WebP.FlagIsRightIff`).
- The chunk end of a log query wraps around at the top of the 64-bit range (`LogSync.TopBlockWraps`,
  `LogSync.WrapsIff`, `LogSync.Fetch`); no head that the cursor column can hold gets there (`LogSyncRuns.CatchesUp`).

## Model

| member | source | states |
|---|---|---|
| `RegistrationStore.TicketStore.Create` | internal/authregistration/store.go:49-65 | succeeds exactly when no ticket is visible; readers then see it until its lifetime ends; every other key is seen as before, at every instant |
| `RegistrationStore.TicketStore.Claim` | internal/authregistration/store.go:81-115 | granted exactly when the ticket is visible and no claim is, with the ticket as reply; the claim is then seen until its lease ends, and nothing else changes for any reader |
| `RegistrationStore.TicketStore.ReleaseClaim` | internal/authregistration/store.go:119-130 | only the visible claim of the caller disappears; all other claims and all tickets are seen as before |
| `RegistrationStore.TicketStore.Complete` | internal/authregistration/store.go:136-166 | ticket and claim disappear for good exactly when the ticket is visible and the caller owns the visible claim; otherwise nothing changes |
| `RegistrationStore.TicketStore.Delete` | internal/authregistration/store.go:168-197 | the ticket disappears exactly when it is visible and unclaimed; otherwise nothing changes, and claims never do |
| `RegistrationRuns.InvRun` | internal/authregistration/handler.go:188-320 | every reachable state of any interleaving of submissions, cancellations, ticks and lost replies keeps claims owned, leases dated, consumptions and sessions recorded |
| `RegistrationRuns.TicketConsumedOnce` | internal/authregistration/store.go:136-197 | a ticket is consumed at most once, is gone afterwards, and a completion was made by the owner of the claim inside its lease |
| `RegistrationRuns.OneSessionPerTicket` | internal/authregistration/handler.go:252-286 | at most one submission per ticket issues a login session, the one that completed the ticket |
| `RegistrationRuns.GrantsAreLawful` | internal/authregistration/store.go:81-108 | every claim ever granted was granted at a moment when the ticket was visible and no claim was |
| `RegistrationRuns.LiveClaimsAreLawful` | internal/authregistration/store.go:81-108 | every visible claim is one of those grants, still inside its lease |
| `RegistrationRuns.OthersKeepLease` | internal/authregistration/store.go:119-166 | no step of another request touches a visible claim or its ticket |
| `RegistrationRuns.LeaseProtects` | internal/authregistration/handler.go:216-256 | over any further interleaving of other requests, lapsed holders included, claim and ticket stay untouched while the lease runs |
| `RegistrationRuns.ReleasedIsGone` | internal/authregistration/store.go:119-130 | a release that reaches the store frees the ticket: over any further run its claim is never seen again |
| `RegistrationSecrets.SessionsNeedSecret` | internal/authregistration/handler.go:188-286 | over every run, each session and each completed ticket goes back to a submission that carried the secret of that very ticket, checked while the ticket was at most fifteen minutes old |
| `RegistrationSecrets.CancellationsNeedSecret` | internal/authregistration/handler.go:288-320 | each ticket consumed without a claim goes back to a cancellation that carried its secret, checked likewise |
| `RegistrationSecrets.SecretSuffices` | internal/authregistration/handler.go:188-286 | an undisturbed submission gets a session if and only if it carries the nonempty secret of a fresh, visible ticket |
| `RegistrationSecrets.SecretCancels` | internal/authregistration/handler.go:288-320 | an undisturbed cancellation consumes the ticket under the same condition |
| `OneTimeStore.Store.Create` | internal/googleoidc/store.go:52-106 | refused exactly at one of the two limits, a collision exactly on a visible value; what each counter counts and what readers see of every key afterwards |
| `OneTimeStore.Store.Consume` | internal/googleoidc/store.go:110-133 | returns what readers see of the identifier and then nobody sees it again; other identifiers and the counters are untouched |
| `FixedWindow.WindowHoldsLimit` | internal/googleoidc/store.go:57-78 | one counter window admits at most its limit |
| `FixedWindow.AtMostTwiceTheLimit` | internal/googleoidc/store.go:57-78 | any half-open stretch of one window length holds at most twice the limit |
| `OneTimeRuns.CountersRun` | internal/googleoidc/store.go:57-78 | over every run the admitted attempts are consistent with both counters |
| `OneTimeRuns.RateBound` | internal/googleoidc/store.go:52-106 | in any such stretch at most 240 creations succeed, and at most 40 of one client |
| `OneTimeRuns.ClientRefusalIsLocal` | internal/googleoidc/store.go:57-78 | an attempt refused by its client limit spends no global budget and leaves other clients alone |
| `OneTimeRuns.ConsumedAtMostOnce` | internal/googleoidc/store.go:110-133 | over every run, consumptions are matched one to one with creations of the same identifier and value, each inside its lifetime |
| `OneTimeRuns.RecordsAreEvents` | internal/googleoidc/store.go:52-133 | every recorded creation and consumption is a request of that run, with its identifier, value and instant |
| `WormExecution.ConsumeIsSound` | internal/phantomauth/worm_execution_store.go:123-153 | a consumed challenge is the issued one, taken by this request in time |
| `WormExecution.ConsumedIff` | internal/phantomauth/worm_execution_store.go:123-191 | a request gets past consumption exactly when the store answers with a complete, unexpired challenge of five minutes for the named Run, dated at most a minute ahead |
| `WormExecution.ReadIsSound` | internal/phantomauth/worm_execution_authorization.go:326-369 | each later read of session, account and plan is compared with the recorded binding before the request goes on |
| `WormExecution.InvRun` | internal/phantomauth/worm_execution_authorization.go:183-413 | in every run, with any change of sessions, accounts and plans in between, each request holds only sound proofs |
| `WormExecution.AuthorizationsAreBound` | internal/phantomauth/worm_execution_authorization.go:291-413 | the authorizer is called at most once per challenge, with every binding of the challenge, agreeing with session, wallet address and plan as read, in this order, after consumption, over a message the wallet signed |
| `WormOrigins.AuthorizationsGoBack` | internal/phantomauth/worm_execution_authorization.go:183-413 | every authorization in every run goes back to one earlier request for a challenge: its Run, command, revision and return path are the ones asked for, account, session, access revision, address and plan the ones that request read, in this order, and the wallet signed exactly this under its nonce |
| `WormExecution.AuthorizationOnTimeIff` | internal/phantomauth/worm_execution_authorization.go:291-413 | every call in every run is before its challenge's expiry if and only if the events between its consumption and the call take less than the lifetime left |
| `WormExecution.PromptContinuationsIff` | internal/phantomauth/worm_execution_authorization.go:291-413 | decided at consumption: all continuations that take at most a given delay authorize on time if and only if the delay is less than the lifetime left |
| `WormExecution.LateAuthorizationExists` | internal/phantomauth/worm_execution_authorization.go:291-413 | for every legitimate request there is a run that authorizes after expiry |
| `InboundScanner.FetchBlocks` | internal/bscinbound/scanner.go:202-221 | all blocks of the range in order, or a failure when one is missing |
| `InboundScanner.VerifyBlockContinuity` | internal/bscinbound/scanner.go:223-235 | accepts exactly the sequences in which each block names its predecessor |
| `InboundScanner.FindCandidates` | internal/bscinbound/scanner.go:245-261 | the candidates of all blocks, failing exactly when a sender cannot be derived |
| `InboundScanner.SettleCandidates` | internal/bscinbound/scanner.go:263-296 | the successful candidates' rows, failing exactly when a receipt is missing or contradicts the block |
| `InboundScanner.CollectTransactions` | internal/bscinbound/scanner.go:245-296 | both steps together |
| `InboundScanner.CollectsIff` | internal/bscinbound/scanner.go:245-296 | collection succeeds exactly when every inbound transaction has a sender and a receipt that fits or says it failed |
| `InboundScanner.CollectedExactly` | internal/bscinbound/scanner.go:245-296 | a row is collected if and only if it has the hash, sender, recipient, value, block and index of an inbound transaction that succeeded; rows are in strictly ascending (block, index) |
| `InboundStore.FindFirstBlockAtOrAfter` | internal/bscinbound/scanner.go:185-200 | the search loop computes the bisection |
| `InboundStore.FindFirstBoundary` | internal/bscinbound/scanner.go:185-200 | whatever the node answers, the result lies between a block seen as too old and one seen as recent |
| `InboundStore.StartIsLeast` | internal/bscinbound/scanner.go:145-183 | under monotone timestamps the start block is the least one no older than thirty days, and the cursor is the block before it, with its hash and time |
| `InboundStore.Store.InitializeCheckpoint` | internal/bscinbound/store/store.go:96-112 | fails exactly for values the columns cannot hold; otherwise the stored checkpoint is the first one ever proposed, and rows are untouched |
| `InboundStore.InsertIff` | internal/bscinbound/store/store.go:137-146 | when a row is refused, skipped or appended |
| `InboundStore.Store.CommitBatch` | internal/bscinbound/store/store.go:114-165 | rows and cursor change together, only if the stored cursor is the expected one and every row can be stored |
| `InboundStore.EnsureCheckpoint` | internal/bscinbound/scanner.go:145-183 | the checkpoint after initialization, or none when the node fails |
| `InboundStore.ScanBatch` | internal/bscinbound/scanner.go:99-131 | the outcome of an iteration up to the commit, for every failure |
| `InboundStore.RunOnce` | internal/bscinbound/scanner.go:91-143 | the whole iteration as a function of the database and the node's answers |
| `InboundRuns.AcceptedChain` | internal/bscinbound/scanner.go:91-143 | with any number of scanners and any node answers, the accepted blocks from start to cursor are one gap-free parent-hash chain |
| `InboundRuns.AcceptedAreFinal` | internal/bscinbound/scanner.go:99-131 | every accepted block was reported final by the node that served it, and the checkpoint has the last block's time |
| `InboundRuns.ServedScannerAdvances` | internal/bscinbound/scanner.go:91-143 | from every reachable state, a scanner with the current checkpoint whose node serves the next batch commits exactly that batch |
| `InboundRuns.NothingSkippedIff` | internal/bscinbound/store/store.go:114-165 | insertion stores everything exactly when no hash repeats |
| `InboundRuns.RepeatedHashIsSkipped` | internal/bscinbound/store/store.go:114-165 | a run of two settled batches that collect the same transaction twice and store it once |
| `InboundRuns.StoredRows` | internal/bscinbound/scanner.go:91-143 | stored rows are strictly ascending, taken from the collected ones, cover every collected hash, and equal the collected ones if and only if no hash repeats |
| `InboundRuns.StoredOnce` | internal/bscinbound/store/store.go:114-165 | no hash is ever stored twice |
| `InboundRuns.CollectedAreQualifying` | internal/bscinbound/scanner.go:245-296 | over a whole run, a row is collected if and only if it describes a successful inbound transaction of an accepted block |
| `InboundRuns.NeverRetreats` | internal/bscinbound/scanner.go:91-143 | the start stays, the cursor never decreases, batches and rows only grow at the end |
| `Bytes.DecodeEncode` | internal/bscinbound/service.go:122-142 | unpadded base64url (section 5 of RFC 4648) decodes what it encodes, for every byte string |
| `Bytes.SextetsAreBits` | internal/bscinbound/service.go:122-129 | each three bytes become four digits of the same 24 bits, the rest filled up with zero bits |
| `Bytes.LineBreaksAreIgnored` | internal/bscinbound/service.go:131-142 | line breaks anywhere in a token change nothing |
| `InboundPages.EncodePageToken` | internal/bscinbound/service.go:122-129 | the buffer holds version, address, block and index, big-endian |
| `InboundPages.TokenRoundTrip` | internal/bscinbound/service.go:122-142 | decoding gives back every address and 64-bit position |
| `InboundPages.TokenIff` | internal/bscinbound/service.go:131-142 | a text decodes to an address and a position if and only if it is a base64url form of their token bytes |
| `InboundPages.AnsweredIff` | internal/bscinbound/service.go:36-120 | which requests are answered, and that the page is the front of the listing before the requested position, of the requested or default size, with a token exactly when items remain |
| `InboundPages.ForeignTokenIsRefused` | internal/bscinbound/service.go:108-119 | the token of another address is refused |
| `InboundPages.ListingSplits` | internal/bscinbound/service.go:36-76 | what follows an item of a listing is the listing before that item's position |
| `InboundPages.ListingIsDescending` | internal/bscinbound/service.go:36-76 | a listing has exactly the address's rows in strictly descending position |
| `InboundPages.NextPage` | internal/bscinbound/service.go:36-120 | each page is the next piece of the first listing, however much was stored since |
| `InboundPages.WalkIsComplete` | internal/bscinbound/service.go:36-142 | following tokens with any page sizes while blocks are committed never fails, terminates, and returns each row of the first request once, newest first |
| `InboundPages.RunsAreGrowing` | internal/bscinbound/scanner.go:91-143 | the databases of any scanner run satisfy what that walk needs |
| `InboundPages.ListedWereSent` | internal/bscinbound/service.go:36-76 | over every run, whatever an address lists was sent to it in an accepted block |
| `InboundPages.SentAreListed` | internal/bscinbound/service.go:36-76 | and everything that was is listed, as long as no hash was collected twice |
| `SwapScanner.GroupByHash` | internal/bscswap/scanner.go:218-246 | accepts exactly the consistent logs and indexes each transaction once |
| `SwapScanner.AcceptableIff` | internal/bscswap/scanner.go:221-232 | what makes a log acceptable, the topic included |
| `SwapScanner.CollectCandidates` | internal/bscswap/scanner.go:218-264 | succeeds exactly on consistent logs; every transaction listed once in position order, block numbers ascending |
| `SwapScanner.SwapTransactions` | internal/bscswap/scanner.go:291-321 | succeeds exactly when every candidate sits where its block says; one row each |
| `SwapScanner.MatchingIsStrict` | internal/bscswap/scanner.go:248-321 | matching candidates never share a position, so the order is strict |
| `SwapScanner.OrderIndependent` | internal/bscswap/scanner.go:218-321 | any permutation or repetition of the logs and any map order give the same outcome and the same rows |
| `SwapScanner.OneRowPerTransaction` | internal/bscswap/scanner.go:218-321 | exactly one row per distinct hash in the logs, strictly ascending in (block, index), each with the place its log gives, the time of that block and the sender found there |
| `Sorting.SortSorts` | internal/bscswap/scanner.go:252-262 | sorting by a strict weak order orders |
| `Sorting.SortPermutes` | internal/bscswap/scanner.go:252-262 | and permutes |
| `AccountAccess.ValidIsComplete` | internal/accountaccess/access.go:133-180 | an aggregate is valid if and only if it has one permitted level for each product module and nothing else, and the fixed shape of an administrator if it is one |
| `AccountAccess.RequirementIsOneRule` | internal/accountaccess/access.go:183-222 | a valid requirement is the administrator rule, the profit-sharing rule, or a read or write level that the module supports |
| `AccountAccess.AuthorizeIsOrder` | internal/accountaccess/controller.go:158-187 | every answer for every snapshot: invalid requirements, then unknown accounts; administrators alone pass the administrator rule, holders the profit-sharing rule, and module rules follow the order of levels; no module is missing in valid aggregates |
| `AccountAccess.Store.UpdateAccountAccess` | internal/accountstate/store/sql_store.go:239-320 | succeeds exactly for a valid offer based on the stored revision of a non-administrator; the revision goes up by one, and no second update based on it can succeed |
| `AccountAccess.Controller.Register` | internal/accountaccess/controller.go:52-75 | publishes the durable aggregate unless a newer or equal one is published |
| `AccountAccess.Controller.Update` | internal/accountaccess/controller.go:107-154 | succeeds only on the revision that is both published and durable, and always when both agree with the offer; store and snapshot then move together by one revision; when each error is given, and that it changes nothing |
| `AccountAccessRuns.InvRun` | internal/accountaccess/controller.go:52-154 | the invariants below hold under every interleaving of update and registration steps |
| `AccountAccessRuns.SnapshotFollowsStore` | internal/accountaccess/controller.go:52-154 | published is never newer and at most one revision older than durable; outside the commit-to-publish gap it is older if and only if the account's last commit lost its reply and no registration that read after it has published since |
| `AccountAccessRuns.PublicationAdvances` | internal/accountaccess/controller.go:52-154 | published revisions never decrease; roles and administrators' aggregates never change |
| `AccountAccessRuns.AuthorizeNeverMisses` | internal/accountaccess/controller.go:158-187 | in every run authorization sees complete aggregates |
| `AccountAccessRuns.LostReplyLags` | internal/accountaccess/controller.go:107-154 | any permitted update with a lost commit reply leaves the snapshot behind |
| `AccountAccessRuns.LostReplyStalls` | internal/accountaccess/controller.go:107-154 | until then further updates at the published revision change nothing |
| `AccountAccessRuns.RegistrationHeals` | internal/accountaccess/controller.go:52-75 | a registration publishes the durable aggregate again |
| `Credentials.CredentialManager.PublishLocked` | internal/accountcredentials/manager.go:327-374 | succeeds exactly for a proper account whose identity nobody else holds and which keeps its own; it keeps existing keys and an exact index; otherwise nothing changes |
| `Credentials.PublishIsExact` | internal/accountcredentials/manager.go:327-374 | the same of the publication as a step of the runs |
| `Credentials.PublishableIff` | internal/accountcredentials/types.go:160-225 | which Google, wallet and development accounts are proper ones |
| `Credentials.CredentialManager.IssueApiKey` | internal/accountcredentials/manager.go:212-240 | a key is added exactly when the account exists, the identifier is valid and free, and the store accepted it |
| `Credentials.CredentialManager.DeleteApiKey` | internal/accountcredentials/manager.go:267-283 | exactly the named key is removed, after the store confirmed |
| `Credentials.CredentialManager.ValidateCredential` | internal/accountcredentials/manager.go:285-305 | decides by identity binding or by key identifier |
| `Credentials.ValidatesIff` | internal/accountcredentials/manager.go:285-305 | a session needs the account's external identity, a key a listed identifier, and no other capability is valid |
| `Credentials.TokenIdIndex` | internal/accountcredentials/manager.go:381-388 | the first position of a display identifier, or none |
| `CredentialRuns.PublicationSucceeds` | internal/accountcredentials/manager.go:327-374 | what was read from the store can always be published |
| `CredentialRuns.AccountsAreProper` | internal/accountcredentials/manager.go:327-374 | over every run, every account in memory and in the store is a proper one |
| `CredentialRuns.RegisteredIff` | internal/accountstate/store/sql_store.go:472-525 | an account is stored exactly when it is a proper external one whose identity and lower-case name nobody has, and no second administrator |
| `CredentialRuns.NamesStayUnique` | internal/accountstate/store/migrations/000001_init.sql:116-125 | usernames stay unique up to case, and there is one administrator at most |
| `CredentialRuns.LoginIsRecorded` | internal/accountcredentials/manager.go:194-210 | what a lookup and a recorded login leave for publication |
| `CredentialRuns.PendingIsPublished` | internal/accountcredentials/manager.go:160-210 | over every run, what a request has read or written is published with the account's keys, and found by its identity |
| `CredentialRuns.InvRun` | internal/accountcredentials/manager.go:57-374 | in every reachable state stored profiles are proper with distinct identities, the index is exact, memory mirrors the store up to pending logins, and keys are unique |
| `CredentialRuns.IndexIsExact` | internal/accountcredentials/manager.go:327-374 | the index maps an identity to an account exactly when that account holds it, in memory and in the store |
| `CredentialRuns.IdentityIsPermanent` | internal/accountcredentials/manager.go:327-374 | username, provider, subject and role never change after publication |
| `CredentialRuns.SessionsStayValid` | internal/accountcredentials/manager.go:245-305 | a login session stays valid for its account and for no other |
| `CredentialRuns.PublicationKeepsKeys` | internal/accountcredentials/manager.go:327-374 | publishing again changes no key in memory or in the store |
| `CredentialRuns.KeysAgreeIff` | internal/accountcredentials/manager.go:212-283 | over every run, memory and store hold the same key under a display identifier if and only if no issue or deletion of it took effect with its reply lost |
| `CredentialRuns.DivergenceStays` | internal/accountcredentials/manager.go:212-283 | such a disagreement is permanent while the manager lives |
| `CredentialRuns.KeyValidatesIff` | internal/accountcredentials/manager.go:212-305 | a key validates exactly while the store has it, if and only if no such reply was lost |
| `CredentialRuns.LostDeletion` | internal/accountcredentials/manager.go:267-305 | a deletion whose reply is lost: the key is gone from the store and validates ever after |
| `CredentialRuns.LostIssue` | internal/accountcredentials/manager.go:212-240 | an issue whose reply is lost: the store has the key and it never validates |
| `Text.TrimIsProjection` | internal/marketradar/hot_markets.go:167-231 | trimming yields trimmed text and keeps trimmed text |
| `Text.TrimDropsSpaces` | internal/marketradar/hot_markets.go:167-231 | trimming drops spaces at both ends and nothing else |
| `HotMarkets.Radar.ApplyCandidates` | internal/marketradar/hot_markets.go:167-231 | the loop computes the declared refresh: first occurrences of the best 500, then surviving monitored markets, cut at 650, with their counters |
| `HotMarkets.IndexById` | internal/marketradar/hot_markets.go:168-174 | the last candidate of every untrimmed identifier |
| `HotMarkets.SelectTop` | internal/marketradar/hot_markets.go:176-200 | the first occurrences of the best 500, in order, with counter zero |
| `HotMarkets.KeepOrDrop` | internal/marketradar/hot_markets.go:202-227 | one monitored market is refreshed, kept, or dropped |
| `HotMarkets.TopLeads` | internal/marketradar/hot_markets.go:198-200 | the list begins with the whole top and is cut short only when it is full |
| `HotMarkets.ListedShows` | internal/marketradar/hot_markets.go:198-227 | each listed market shows its first candidate of the best 500, or below the top its last candidate, or what it showed before when it is not listed |
| `HotMarketRuns.ListBeginsWithTop` | internal/marketradar/hot_markets.go:167-231 | after every history: distinct identifiers, at most 650, the deduplicated top first |
| `HotMarketRuns.CounterIsStreak` | internal/marketradar/hot_markets.go:202-230 | the counter is the number of consecutive refreshes without the market, below three |
| `HotMarketRuns.MonitoredExactly` | internal/marketradar/hot_markets.go:167-231 | a refresh monitors exactly the top and the previously monitored with fewer than three absences, unless the list is full |
| `HotMarketRuns.AbsentMarketsLeave` | internal/marketradar/hot_markets.go:218-226 | a market absent three times in a row is gone |
| `HotMarketRuns.PresentIsListed` | internal/marketradar/hot_markets.go:233-305 | for trimmed identifiers, present means listed among the candidates |
| `MoverAlerts.Alerts.Collect` | internal/marketradar/mover_alerts.go:125-177 | every emitted alert is what some item is worth; every item's worth is emitted unless the maximum of alerts none of which it outranks is; what is remembered |
| `MoverAlerts.AnnouncedExactly` | internal/marketradar/mover_alerts.go:71-243 | the candidates are exactly what items out of warmup, with enough volume and nonblank key parts are worth: critical or warning by the thresholds or their defaults, and due by escalation or cooldown |
| `MoverAlerts.EmittedExactly` | internal/marketradar/mover_alerts.go:125-177 | what of this is emitted and what withheld |
| `MoverAlerts.SeverityIsMonotone` | internal/marketradar/mover_alerts.go:218-233 | raising the score or a change never lowers the severity |
| `MoverAlerts.OutranksIsOrder` | internal/marketradar/mover_alerts.go:152-164 | the ranking is a strict weak order |
| `MoverAlerts.OutranksIff` | internal/marketradar/mover_alerts.go:152-164 | critical first, then score, one-minute change and condition |
| `MoverAlerts.TextLessIff` | internal/marketradar/mover_alerts.go:163-163 | text order is by prefix or first difference |
| `MoverAlerts.BestAreTaken` | internal/marketradar/mover_alerts.go:152-167 | at most the maximum is emitted, some are withheld only at the maximum, and nothing withheld outranks anything emitted |
| `MoverAlerts.SameKeySameMarket` | internal/marketradar/mover_alerts.go:235-243 | equal keys of colon-free identifiers are keys of one market |
| `MoverAlerts.ColonsCollide` | internal/marketradar/mover_alerts.go:235-243 | two markets with a colon can share a key |
| `MoverAlerts.EarlyAlertsAreForgotten` | internal/marketradar/mover_alerts.go:207-216 | alerts remembered with a time of zero or before have no effect on later refreshes |
| `MoverAlertRuns.CooledIff` | internal/marketradar/mover_alerts.go:125-216 | over every run with a nondecreasing clock, alerts of one key within a cooldown of one at a positive time are one escalation, if and only if the cooldown is under a second or no refresh announces two markets under one key |
| `MoverAlertRuns.DistinctKeysCool` | internal/marketradar/mover_alerts.go:125-216 | so the cooldown holds whenever the markets of each refresh have distinct keys |
| `MoverAlertRuns.ColonFreeKeysAreDistinct` | internal/marketradar/mover_alerts.go:235-243 | as distinct colon-free condition identifiers have |
| `MoverAlertRuns.OnlyEscalation` | internal/marketradar/mover_alerts.go:125-216 | two alerts of one key within a cooldown, the first at a positive time, are a warning and then a critical one |
| `MoverAlertRuns.AtMostTwoPerCooldown` | internal/marketradar/mover_alerts.go:125-216 | no half-open cooldown that starts with an alert at a positive time holds three alerts of one key |
| `MoverAlertRuns.AlertsAreAnnounced` | internal/marketradar/mover_alerts.go:125-243 | over every run, each alert goes back to an item of a refresh that was worth it, at the refresh's time or the wall clock if that is not set |
| `MoverAlertRuns.RepeatedWarning` | internal/marketradar/mover_alerts.go:207-216 | a warning repeated any number of times at one clock value is sent once if the clock is positive, and every time otherwise |
| `MoverAlertRuns.SharedKeyIsSentTwice` | internal/marketradar/mover_alerts.go:125-177 | two markets with one key are both announced by one refresh |
| `RealtimeSamples.AppendOrReplace` | internal/marketradar/realtime_markets.go:293-309 | the list stays strictly increasing and the time's price is set, nothing else |
| `RealtimeSamples.Prune` | internal/marketradar/realtime_markets.go:311-320 | exactly the samples before the cutoff go |
| `RealtimeSamples.WindowItem` | internal/marketradar/realtime_markets.go:170-200 | out of warmup exactly when some sample is at least a window old; then the latest such sample is the reference |
| `RealtimeBoard.Board.SampleCandidates` | internal/marketradar/realtime_markets.go:228-267 | prices and states after a refresh, and sample keys within state keys within the tokens of monitored markets |
| `RealtimeBoard.ToldIsLast` | internal/marketradar/realtime_markets.go:228-251 | an observed token's state has its last price, dated now; the others are as they were |
| `RealtimeBoard.Board.Cleanup` | internal/marketradar/realtime_markets.go:269-291 | states and samples of exactly the other tokens go |
| `RealtimeBoard.Board.EnsureStates` | internal/marketradar/realtime_markets.go:202-226 | state keys grow by exactly the markets' tokens; each state has the last usable price of the markets, else the one it had, and keeps its time |
| `RealtimeRuns.TimesAreQuotes` | internal/marketradar/realtime_markets.go:228-320 | over every history with a nondecreasing clock, a token's list has exactly the times of quotes since it is continuously monitored, within 16 minutes |
| `RealtimeRuns.PricesAreLastQuotes` | internal/marketradar/realtime_markets.go:228-320 | each with the last price quoted at that time |
| `RealtimeRuns.WarmIffQuoted` | internal/marketradar/realtime_markets.go:170-320 | over every such history a window is out of warmup if and only if some such quote is at least a window old |
| `RealtimeRuns.KeysNested` | internal/marketradar/realtime_markets.go:202-291 | after every history sample keys are within state keys, which are within the tokens of monitored markets |
| `WebP.Inspect` | internal/avatarimage/image.go:102-168 | the offset walk terminates, stays inside the data and gives the verdict on the parsed chunks |
| `WebP.ParseSound` | internal/avatarimage/image.go:114-163 | parsed chunks with their padding are the bytes |
| `WebP.ParseComplete` | internal/avatarimage/image.go:114-163 | every serialized chunk list is parsed back |
| `WebP.PassingIsWellFormed` | internal/avatarimage/image.go:102-168 | success means that padded chunks tile bytes 12 to the declared end, which is even (section 2.3 of RFC 9649) |
| `WebP.PassesIff` | internal/avatarimage/image.go:102-168 | a file passes if and only if it is the serialization of chunks that pass, with that result |
| `WebP.VerdictIff` | internal/avatarimage/image.go:126-167 | chunks pass exactly under the frame and header rules; the result has the animation flag and the frame size |
| `WebP.FlagIsRightIff` | internal/avatarimage/image.go:127-134 | the flag is the declared one if and only if no unflagged header follows all animation chunks |
| `WebP.HeaderFirstIsRight` | internal/avatarimage/image.go:127-134 | with the extended header first the flag is right |
| `WebP.MaskedAnimation` | internal/avatarimage/image.go:127-134 | for every decodable frame that fits into a container, a file that is accepted as a still image although it declares an animation |
| `WebP.SizeAcceptedIff` | internal/avatarimage/image.go:79-84 | the size check with its division is the bound on both sides and on the product |
| `Poller.TelegramPoller.Run` | internal/notification/poller.go:111-187 | the nested retry loops follow the state machine of calls for every sequence of answers |
| `Poller.TelegramPoller.Updates` | internal/notification/poller.go:144-184 | the loop over one batch |
| `PollerRuns.InvRun` | internal/notification/poller.go:111-187 | offset, batch position and handled updates fit together in every run with failures and restarts |
| `PollerRuns.BelowOffsetIsHandled` | internal/notification/poller.go:144-184 | every update that arrived from the first offset on and lies below the durable one was handled |
| `PollerRuns.CommittedIsFinal` | internal/notification/poller.go:163-183 | the durable offset never decreases, and an update below it is never handled again |
| `PollerRuns.FirstHandledInOrder` | internal/notification/poller.go:144-184 | updates are first handled in increasing order |
| `PollerRuns.DeliveredGoesThrough` | internal/notification/poller.go:111-187 | from every reachable resting state, a batch that is delivered without failure is committed to its last update, and polling goes on behind it |
| `LogSync.PiecesPartition` | internal/managedoo/log_sync.go:158-185 | the pieces are consecutive from the first block to the last, 2000 blocks each except the last |
| `LogSync.WrapsIff` | internal/managedoo/log_sync.go:158-162 | the wrap-around condition in closed form |
| `LogSync.LowRangesDoNotWrap` | internal/managedoo/log_sync.go:158-162 | no range that ends at 2^64 - 2000 or below wraps |
| `LogSync.TopBlockWraps` | internal/managedoo/log_sync.go:158-162 | above that even one block does |
| `LogSync.Fetch` | internal/managedoo/log_sync.go:154-187 | the queried ranges are the pieces and the result is that of one unchunked query; it succeeds exactly when nothing wraps, the node answers and every log decodes |
| `LogSyncRuns.Syncer.Sync` | internal/managedoo/log_sync.go:79-152 | one synchronisation, for missing cursors, lagging heads and every failure |
| `LogSyncRuns.FirstHeadIsTheStart` | internal/managedoo/log_sync.go:101-117 | the first head that reaches the store becomes the cursor, with nothing ingested, and stays the start |
| `LogSyncRuns.IngestedExactly` | internal/managedoo/log_sync.go:79-152 | exactly the logs after the initial block up to the cursor are ingested, in order |
| `LogSyncRuns.CursorNeverRegresses` | internal/managedoo/log_sync.go:119-128 | the cursor never goes back, whatever heads are reported |
| `LogSyncRuns.CatchesUp` | internal/managedoo/log_sync.go:130-143 | a newer head that the store can keep is reached whenever its logs decode |
| `Divisibility.GcdFacts` | internal/etherscanmanager/manager.go:152-161 | common divisor and integer combination |
| `Divisibility.LcmDivides` | internal/etherscanmanager/manager.go:152-161 | the least common multiple divides every common multiple |
| `RoundRobin.Manager.NextGatewayClient` | internal/etherscanmanager/manager.go:152-161 | fails exactly without keys or gateways; the n-th call of a manager's life picks the n-th pair, and every key and gateway has then been used the rounded-down or rounded-up number of times, until the counter wraps |
| `RoundRobin.UsedEvenly` | internal/etherscanmanager/manager.go:152-161 | in any consecutive selections before wrap-around every entry is used the rounded-down or rounded-up number of times |
| `RoundRobin.RoundUsesEachPairOnce` | internal/etherscanmanager/manager.go:152-161 | one full round uses exactly the pairs whose indices agree modulo the greatest common divisor, each once |
| `RoundRobin.NormalizeStringList` | internal/etherscanmanager/manager.go:163-178 | the first occurrence of every nonblank value, trimmed, in order |
| `RoundRobin.FirstsHave` | internal/etherscanmanager/manager.go:163-178 | that list has exactly the trimmed nonblank values, each once |

## Left out

- HTTP handling, cookies, redirects, logging, metrics and server wiring: no property over runs.
- URL and return-path normalisation, identity and ticket syntax, base58, UUID and hex syntax: they live in libraries or add easy members; where they matter they are parameters.
- Cryptography: signatures are a parameter, digests an injective constructor.
- The wallet-secret, credential and cash-out proof flows: near copies of the execution proof.
- The Redis key layout and JSON encoding of stored values: values are stored as they are.
- The iteration and checkpoint code of the swap scanner (internal/bscswap/scanner.go:84-209): a near copy of the inbound scanner's.
- The concurrent fetching of blocks and receipts: only which answers arrived matters to the result.
- NewCredentialManager and NewController: their loading loops are the initial-state predicates of the runs; a restart begins a new run.
- The published e-mail and last login of an account: publications of two logins may arrive in either order, and nothing is claimed about which remains.
- Fetching, filtering, mapping and sorting of market candidates, and the choice of a market's leading token: the models start from the resulting lists.
- Rendering and sending of alerts: an alert counts as sent when it is collected, as the code records it.
- Float rounding of prices and of durations; a cooldown counts in whole seconds, rounded down, as in the code.
- VP8 and VP8L header decoding: parameters that yield a size or nothing; image decoding as a whole.
- What Telegram handlers do with an update: handling succeeds or fails.
- Decoding of contract logs: a parameter; market data and alerts of the managed oracle.
- The counter's behaviour across its wrap-around at 2^64: selections are even only before it.
- Profit sharing, account centre, avatar storage, gateway field parsing and configuration: mapping code or library wrappers.
