# freighter-backend-v2, modelled in Dafny

The concurrent, time-dependent and error-handling cores of the Freighter HTTP backend, as Dafny models
with proofs. `dafny verify dfyconfig.toml` checks everything.

| files | what they model |
|---|---|
| `Text`, `Decimal`, `Hex`, `Slices` | the string, number and list helpers the code relies on |
| `AssetId`, `PriceCache`, `PriceOrchestrator`, `PriceSafety`, `PriceTheorems`, `PriceHits`, `PriceReports`, `PriceAges`, `PriceProgress`, `TokenPrices` | token prices: canonical ids, the TTL cache, the singleflight orchestrator as an interleaving of steps, its invariant, its promises, the cache at work, the source and age of what it returns, its progress, and the HTTP handler |
| `Collectibles`, `CollectiblesSafety`, `CollectiblesSteps`, `CollectiblesTheorems`, `CollectiblesTruth`, `CollectiblesResponses` | the three nested worker pools as an interleaving of steps, their invariant, bounds and progress, and each response explained by the replies behind it |
| `Amounts`, `ErrorChains`, `Balances` | fixed-point balances, the error classifiers, the balances fan-out as an interleaving of steps |
| `AuthToken`, `BearerHeader`, `AuthGate`, `Truncation` | token verification over clock arithmetic, the permissive/strict gate and its metrics, log truncation |
| `ResponseWriters`, `ResponsePipeline`, `MiddlewareChain` | the buffered response and the middleware around it |
| `History` | the paged transactions history |

Concurrent parts are step systems: `Enabled` says when a step may happen, `Next` what it does, `Run` folds a
sequence of steps, and `Reachable` means after any sequence. Theorems about `Reachable` states therefore
hold for every interleaving. Parts that update fields or variables in place are classes and methods, each
proved against a specification function that the lemmas then speak about.

## Findings

Facts that contradict, or qualify, what the code's own comments and documents say.

- The bound `MaxConcurrent` on a request's upstream fetches holds while its budget lasts
  (`CapWhileLive`) and is gone afterwards: for every list of tokens some run fetches all of them at once
  (`NoCapAfterExpiry`).
- `docs/design/2026-06-22-jwt-auth-middleware.md` lists the claim checks before the signature check; the
  code checks the signature first (`internal/auth/parser.go:49-66`), and `UnsignedTokensLookAlike` depends on it.
- The replay window `2 * leeway + MaxTokenLifetime` of `internal/auth/claims.go` is kept from the end of one
  acceptance to the start of the next (`ReplayWindow`). From start to start it is kept exactly for tokens
  whose lifetime plus the delay between the first acceptance's clock reads is at most MaxTokenLifetime, or
  whose nbf is at most that far before exp (`WindowFromFirstRead`).
- The last clock check of `Claims.Validate` is unreachable exactly when maxLifetime + leeway fits 64 bits
  (`ExpTooFarIsUnreachable`); the configured range of leeways does (`ConfiguredLeewaysFit`).
- `spendable` adds reserves in int64: two reserves of the largest amount make more available than is held
  (`OverflowInflates`). `SpendableExactly` says for which inputs the result is right.
- The metric label of an error, as a string, tells its HTTP status ("timeout" 503 or 504, "internal" and
  "rpc_error:<code>" 500, everything else 502) exactly unless the chain holds an account-not-found, or it
  holds no timeout or transport failure and its first upstream error has the kind "timeout", "internal" or
  "rpc_error:<code>" without a code, or the kind "rpc_error" with one (`LabelStringAgrees`); no such kind is
  written today. With an account-not-found the status is 404 whatever the label (`NotFoundHidesTimeout`).
- The recorded status code is the one the client gets exactly for final status codes; after an
  informational one the client gets 200, after one outside 100..999 it gets Recover's 500
  (`RecordedIsReceived`, `ClientReceivesIntended`).
- An empty upstream cursor reads as no cursor (`internal/api/handlers/account_history.go:98-100`). Following
  next_cursor ends, and with everything, exactly when no page but the last ends on an empty cursor, and
  otherwise never ends (`NextWorksExactlyWhen`). Going back, an empty cursor sends the client to the end of
  the list; it ends exactly when no page but the last begins at an empty cursor on the way from its own
  cursor, or on the way from the end (`PrevEndsExactlyWhen`). It then has everything before its cursor once
  in the first case, in the second exactly when the edge of the empty cursor and all behind it carry no
  transaction (`PrevWorksExactlyWhen`). Where every edge carries one, or in no more requests than there are
  pages before the cursor, the first case is the only one (`PrevWorksForFullPages`, `PrevWorksInPages`).

## Model

| member | source | states |
|---|---|---|
| Slices.DedupeDistinct | internal/utils/slices.go:5-16 | no element is left twice |
| Slices.DedupeKeepsFirstSeenOrder | internal/utils/slices.go:5-16 | elements come out in the order in which they first occur |
| Slices.DedupePreserveOrder | internal/utils/slices.go:5-16 | the loop over the seen-set computes that specification |
| Text.TrimSpaceIs | internal/utils/assetid/assetid.go:27-28 | trimming removes the Unicode white space at both ends and nothing else |
| AssetId.NormalizeFixesExactlyCanonical | internal/utils/assetid/assetid.go:27-51 | everything Normalize returns is canonical, and it returns its input unchanged exactly for canonical ids |
| AssetId.NormalizeIdempotent | internal/utils/assetid/assetid.go:27-51 | normalizing a normalized id changes nothing |
| AssetId.NormalizeAccepts | internal/utils/assetid/assetid.go:27-51 | exactly the names of the native asset, in any case, and pairs of a code of 1 to 12 letters and digits and a valid issuer are accepted, in white space; the first become XLM, the others stay as they are |
| AssetId.ToStellarExpertOfPair | internal/utils/assetid/assetid.go:57-79 | CODE:ISSUER becomes CODE-ISSUER-1 for codes of up to four characters, CODE-ISSUER-2 for longer ones |
| AssetId.StellarExpertRoundTrip | internal/utils/assetid/assetid.go:57-71 | on canonical ids the Stellar Expert form parses back to the id |
| AssetId.ToStellarExpertInjective | internal/utils/assetid/assetid.go:57-71 | different canonical ids have different Stellar Expert forms |
| PriceCache.CacheKeysRead | internal/services/prices.go:368-370 | the keys are prices:v1:public:<token> and prices:v1:testnet:<token> |
| PriceCache.CacheKeyInjective | internal/services/prices.go:368-370 | a cache key determines network and token, whatever characters the token holds |
| PriceCache.RedisStore.MGetJSON | internal/store/redis.go:53-77 | exactly the live, decodable entries among the keys; an error exactly when the round trip fails on a non-empty list |
| PriceCache.RedisStore.SetJSON | internal/store/redis.go:80-89 | the entry replaces the key's cell and lives for the TTL; a failing call changes nothing |
| PriceCache.BuildKeyTables | internal/services/prices.go:111-116 | keys in token order, and the table that leads back from each key to its own token |
| PriceCache.LoadCachedPrices | internal/services/prices.go:153-184 | exactly the cached tokens are hits, none without a working store; each token is counted once as hit or miss |
| PriceCache.PriceResults.MissingTokens | internal/services/prices.go:382-390 | exactly the requested tokens without a result, at increasing positions of the request |
| PriceCache.PriceResults.CompleteMissingResults | internal/services/prices.go:395-401 | missing tokens get a null, existing results stay, nothing is missing afterwards |
| PriceCache.PriceResults.Put | internal/services/prices.go:199-204 | a resolved fetch stores its entry for its token and touches no other |
| PriceOrchestrator.NewConfig | internal/services/prices.go:73-84 | what is not positive falls back to 30 s, 9 s and 25, so TTL, budget and concurrency are always positive |
| PriceSafety.StepKeepsInv | internal/services/prices.go:101-323 | every step of every request, fetch and cache fault keeps the orchestrator's invariant |
| PriceTheorems.OneFetchPerKey | internal/services/prices.go:219-241 | at most one unfinished upstream fetch per network and token, in every reachable state |
| PriceTheorems.CombineFollows | internal/services/prices.go:279-322 | a price exactly when the asset call answered with one, with the 24h change exactly as far as the candles call had one; undecided exactly when the asset call failed |
| PriceTheorems.WaiterReceivesItsOwnFlight | internal/services/prices.go:193-241 | a worker receives what the two calls of a fetch of its own network and token answered, stores it exactly unless the asset call failed, and overwrites nothing |
| PriceTheorems.HitsAreRecentReports | internal/services/prices.go:352-370 | a cache hit was reported upstream for exactly that pair, at most CacheTTL + MissFetchTimeout before the read |
| PriceHits.LandStores | internal/services/prices.go:318-370 | a fetch stores a price while its own budget lasts, for CacheTTL, and nothing else |
| PriceHits.StartReads | internal/services/prices.go:101-184 | a request's hits are exactly the live, decodable entries of a working cache, everything else it asks for is a miss; with hits only it returns at once |
| PriceHits.StoredPriceIsFoundAgain | internal/services/prices.go:153-370 | a stored price is a hit of exactly the later requests within CacheTTL, whatever happened in between, with the price and change upstream answered |
| PriceReports.StepKeepsAccounted | internal/services/prices.go:219-323 | every step keeps it: each upstream report answers a fetch, each fetch is for a token some caller asked for |
| PriceReports.ReportsNeverCross | internal/services/prices.go:247-248 | among callers with canonical ids every upstream report belongs to an asset that was asked for on its network, and to no other canonical id |
| PriceTheorems.CachedRefinesCacheFree | internal/services/prices.go:101-148 | an uncancelled GetPrices has exactly the requested tokens as keys, keeps its hits, and every value is a positive outcome of a fetch of that pair, as without a cache |
| PriceAges.StepKeepsCurrent | internal/services/prices.go:193-241 | every step keeps it: a request only waits on fetches that had not ended when it began |
| PriceAges.ReturnedPricesWereReported | internal/services/prices.go:247-323 | every returned price was reported upstream for that network and token after the start of a fetch; for a hit that start lies at most CacheTTL + MissFetchTimeout before the request, for a miss the fetch had not ended when the request began |
| PriceAges.PriceAgeBounded | internal/services/prices.go:219-323 | so a price is at most MissFetchTimeout older than the request, plus CacheTTL for a hit, plus for a miss however late past its budget the fetch was delivered |
| PriceTheorems.NothingLostWithinBudget | internal/services/prices.go:126-147 | a request that ends within its budget returns for each miss the price and change that the calls of that token's fetch answered, and null exactly when the asset call answered with no price |
| PriceTheorems.CacheFaultsOnlyLoseHits | internal/store/redis.go:62-75 | an eviction or an undecodable value, possible for any key at any time, takes away exactly that key's hit |
| PriceTheorems.CapWhileLive | internal/services/prices.go:193-211 | while its context lives a request has at most MaxConcurrent unfinished fetches of its own |
| PriceTheorems.NoCapAfterExpiry | internal/services/prices.go:227-241 | once the budget is over that cap is gone: any number of tokens can be in flight for one request |
| PriceTheorems.LocalStepInvisible | internal/services/prices.go:224-240 | whatever a request does besides starting fetches changes nothing but its own record |
| PriceTheorems.OthersCannotTell | internal/services/prices.go:219-241 | other callers' steps are enabled and act the same whatever one request's record says |
| PriceTheorems.CancelCommutes | internal/services/prices.go:224-236 | a caller's cancellation commutes with every step that is not its own |
| PriceTheorems.OthersUnaffected | internal/services/prices.go:219-241 | erasing a request's later steps, cancellation included, from any run leaves all other requests with the same records |
| PriceTheorems.ExpiredRequestCanStep | internal/services/prices.go:193-241 | a request whose budget is over or whose caller is gone waits for nobody |
| PriceTheorems.OwnStepsShorten | internal/services/prices.go:193-211 | each of a request's own steps lowers the number of steps it has left |
| PriceTheorems.ExpiredRequestReturns | internal/services/prices.go:193-241 | so such a request can return by at most three of its own steps per miss and one more, from every reachable state |
| PriceTheorems.CancelledRequestReturns | internal/services/prices.go:132-145 | a caller that gives up frees its request in the same way at any time, and is told that its context is over |
| PriceProgress.FlightAdvances | internal/services/prices.go:239-323 | a fetch is never blocked, whatever upstream answers, and ends after at most five steps |
| PriceProgress.ReachableRequestCanReturn | internal/services/prices.go:101-241 | from every reachable state a request can return without any time passing, with prices unless its caller is gone |
| TokenPrices.ValidateRequest | internal/api/handlers/token_prices.go:39-81 | accepted exactly when at least one token is named, all normalize, and the different assets they denote fit the cap; 413 for an oversized body, else 400 |
| TokenPrices.Echo | internal/api/handlers/token_prices.go:107-113 | the response keys are exactly the raw inputs, each with its canonical id's entry |
| TokenPrices.GetPrices | internal/api/handlers/token_prices.go:84-117 | 400 for a network without prices, 400 or 413 for a bad request, 503 for a timed out or cancelled service, 500 for another failure, else the answer for that network |
| TokenPrices.SameAssetSameEntry | internal/api/handlers/token_prices.go:107-113 | inputs with equal canonical ids get equal entries |
| TokenPrices.RespellingIsFree | internal/api/handlers/token_prices.go:67-75 | more spellings of the same assets never change the outcome of the cap |
| TokenPrices.AsksForCanonicalIds | internal/api/handlers/token_prices.go:52-65 | the service is asked for distinct canonical ids only |
| TokenPrices.AnswersWereReported | internal/api/handlers/token_prices.go:98-113 | handler and orchestrator together: every input is answered, and every price was reported upstream for the asset it denotes, with the same bound on its age |
| Collectibles.FilterContracts | internal/api/handlers/collectibles.go:348-365 | the contracts at increasing positions of the request, exactly those that are none of the configured Meridian addresses |
| Collectibles.FilteredKeepsOrder | internal/api/handlers/collectibles.go:359-365 | each contract that the skip set does not name is kept as often and in the order as it was requested |
| Collectibles.MeridianInOrder | internal/api/handlers/collectibles.go:231-240 | the Meridian contracts are the addresses that are set, in their fixed order |
| CollectiblesSteps.StepKeepsInv | internal/api/handlers/collectibles.go:137-397 | every step of every request and task keeps the task tree, its results and the pool bounds |
| CollectiblesTheorems.PoolsBounded | internal/api/handlers/collectibles.go:100-111 | at most n contract, 2n token and 4n call tasks run at once, over all requests |
| CollectiblesTheorems.PoolsFillUp | internal/api/handlers/collectibles.go:100-111 | and a waiting task can start exactly while fewer than that many run in its pool |
| CollectiblesTheorems.NeverStuck | internal/api/handlers/collectibles.go:186-223 | with positive pool sizes some task can step in every reachable unfinished state: the nested pools never deadlock |
| CollectiblesTheorems.StepShrinks | internal/api/handlers/utils.go:113-163 | every step but a new arrival decreases a well-founded measure |
| CollectiblesTheorems.EveryRequestCompletes | internal/api/handlers/collectibles.go:369-384 | from every state all requests can be brought to their response |
| CollectiblesTruth.StepKeepsTruth | internal/api/handlers/collectibles.go:137-397 | every step keeps each task's outcome what its calls, the owner's reply and the syntactic checks say |
| CollectiblesResponses.RepliesAreRecorded | internal/api/handlers/collectibles.go:241-300 | the recorded replies are the replies: no other step writes them |
| CollectiblesResponses.EveryResultExplained | internal/api/handlers/collectibles.go:137-345 | invalid contract exactly for an id that is none, failed collection exactly when a call for its details failed, failed owner tokens exactly when the owner call failed; a Meridian result holds the tokens the owner call returned |
| CollectiblesResponses.FetchedIff | internal/api/handlers/collectibles.go:159-223 | a token is fetched exactly when its id parses and both its calls succeeded, and is otherwise reported as failed |
| CollectiblesResponses.ResponseInOrder | internal/api/handlers/collectibles.go:367-390 | a finished request holds one result per filtered contract in order, then one per Meridian contract in order, each explained by its own calls |
| CollectiblesResponses.EveryArrivalIsAnswered | internal/api/handlers/collectibles.go:359-396 | from arrival to response, for every interleaving with other requests: one result for each requested contract that is no Meridian address, in request order, then the Meridian ones |
| CollectiblesResponses.TokensConserved | internal/api/handlers/collectibles.go:159-223 | unless an earlier stage failed, fetched ids plus failed ids are the requested ids; a collection is absent exactly when nothing was fetched |
| Amounts.AmountRoundTrip | internal/services/account_balances_mapping.go:139-156 | printing an amount with seven decimals and parsing it back is the identity, for every 64-bit amount within the parser's length limit too |
| Amounts.PrintIsShort | internal/services/account_balances_mapping.go:139-156 | no printed 64-bit amount exceeds the length the parser accepts |
| Amounts.ParsesDecimals | internal/services/account_balances_mapping.go:139-156 | digits around a point are read in units of 10^-7, with any zeros but no other digits from the eighth decimal on |
| Amounts.ParsesWhole | internal/services/account_balances_mapping.go:139-156 | digits without a point too |
| Amounts.ParsesNothingElse | internal/services/account_balances_mapping.go:139-156 | nothing else is an amount |
| Amounts.LengthDecides | internal/services/account_balances_mapping.go:139-156 | at most twenty digits and points are read, and then exactly what fits 64 bits |
| Amounts.SpendableLoop | internal/services/account_balances_mapping.go:139-156 | the int64 loop with its early returns computes the specification |
| Amounts.SpendableExactly | internal/services/account_balances_mapping.go:139-156 | balance less the exact sum of reserves, clamped at zero, exactly when the difference fits int64 or wraps to nothing positive |
| Amounts.SpendableBounded | internal/services/account_balances_mapping.go:139-156 | with nothing negative and sums in range, 0 <= available <= balance |
| Amounts.UnparsableFallsBack | internal/services/account_balances_mapping.go:135-150 | any amount that does not parse yields the raw balance |
| Amounts.OverflowInflates | internal/services/account_balances_mapping.go:144-152 | two reserves of the largest amount make two units more available than are held |
| Amounts.NativeAvailable | internal/services/account_balances_mapping.go:32-37 | a native balance's available part is right exactly when the difference stays in the 64-bit range |
| Amounts.TrustlineAvailable | internal/services/account_balances_mapping.go:45-53 | a trustline's available part is always right |
| Amounts.EveryBalanceShows | internal/services/account_balances_mapping.go:24-114 | total and token id are the SDK's own, all of it is available where nothing locks it, and the key follows the v1 convention of its kind |
| Amounts.UnparsableShowsAll | internal/services/account_balances_mapping.go:135-150 | a native balance or trustline with an amount that does not parse is available as a whole |
| Amounts.KeysDistinguishAssets | internal/services/account_balances_mapping.go:24-114 | balances with the same key are of the same asset, whatever symbol a token chose |
| ErrorChains.FindIsFirstMatch | internal/metrics/metrics.go:288-313 | the depth-first search of errors.As over a tree of causes is the first match in preorder |
| ErrorChains.LabelAgreesWithStatus | internal/api/handlers/utils.go:54-78 | without account-not-found: 503 or 504 exactly for timeouts, 502 exactly for transport and upstream labels, 500 otherwise |
| ErrorChains.StatusByFaults | internal/api/handlers/utils.go:54-78 | the status by what the chain holds, in order of precedence |
| ErrorChains.LabelByFaults | internal/metrics/metrics.go:288-313 | the label string by what the chain holds, the first upstream or RPC error in preorder counting |
| ErrorChains.NotFoundWins | internal/api/handlers/utils.go:54-57 | account-not-found anywhere in the chain is 404, whatever else it holds |
| ErrorChains.LabelStringAgrees | internal/metrics/metrics.go:288-313 | for every chain the label string tells the status, exactly unless an account was not found, or nothing timed out or failed in transport and the first upstream error is of the kind "timeout", "internal", "rpc_error:<code>" without a code or "rpc_error" with one |
| ErrorChains.RenderInjective | internal/metrics/metrics.go:288-313 | with the kinds the code writes, the label string determines the label |
| ErrorChains.KindCanImpersonate | internal/metrics/metrics.go:301-306 | each of those kinds does impersonate: its status is 502 and its label says otherwise |
| ErrorChains.NotFoundHidesTimeout | internal/api/handlers/utils.go:54-57 | a timeout beside an account-not-found is labelled "timeout" with status 404 |
| ErrorChains.PlainErrorsAreInvisible | internal/api/handlers/utils.go:54-78 | plain errors around or beside the others change neither label nor status |
| ErrorChains.WrappingKeepsBoth | internal/metrics/metrics.go:288-313 | nor does any number of wrappings |
| ErrorChains.ClassifyWBKeepsCauses | internal/services/wallet_backend.go:356-372 | classifyWBError hides no cause; it only moves recognised upstream answers from 500 to 502 |
| ErrorChains.ClassifyWBLabel | internal/services/wallet_backend.go:356-372 | the exact label of a classified error |
| ErrorChains.ClassifyWBMessage | internal/services/wallet_backend.go:356-372 | the message of what is classified stays, behind its kind and code |
| ErrorChains.BodyCannotSpoofCode | internal/services/wallet_backend.go:361-370 | the code is the three digits after the marker, whatever body follows |
| Balances.MapAccount | internal/services/wallet_backend.go:198-242 | the loop over one account's balances computes the specification |
| Balances.FundedIffNative | internal/services/wallet_backend.go:221-240 | funded exactly with a native balance, the last one's subentries, and no balances otherwise |
| Balances.StepKeepsInv | internal/services/wallet_backend.go:185-249 | every launch, answer, interruption and cancellation keeps slots and first error right |
| Balances.ErrorsAreGenuine | internal/services/wallet_backend.go:190-248 | while the caller lives, the returned error is the classified failure of some requested address |
| Balances.ErrorStatusIsItsOwn | internal/services/wallet_backend.go:202-213 | so the status is that failure's own, never one induced by a sibling's cancellation |
| Balances.FailsIffSystemic | internal/services/wallet_backend.go:246-249 | while the caller lives, the call fails exactly when some requested address fails systemically |
| Balances.SuccessIsExpected | internal/services/wallet_backend.go:242-249 | a success holds every distinct address's own account, under every schedule |
| Balances.ScheduleIndependent | internal/services/wallet_backend.go:172-249 | two completed schedules agree on success, and on the result |
| Balances.SlotsInRequestOrder | internal/services/wallet_backend.go:183-242 | slot i is about the i-th distinct address; funded, its k-th entry shows the k-th balance of the reply with that balance's own values, unfunded it shows none |
| Balances.FetchesBounded | internal/services/wallet_backend.go:186-190 | at most maxBalanceConcurrency goroutines fetch at once |
| Balances.LaunchedInOrder | internal/services/wallet_backend.go:189-190 | the addresses whose fetch was started are always a prefix of the distinct ones |
| Balances.AlwaysProgress | internal/services/wallet_backend.go:189-246 | an unfinished fan-out can always move |
| Balances.StepsShorten | internal/services/wallet_backend.go:189-246 | every step but the caller's own shortens what remains |
| Balances.EveryFanOutCompletes | internal/services/wallet_backend.go:172-249 | so every fan-out can run to its end with its caller alive |
| Balances.FirstErrorStays | internal/services/wallet_backend.go:186-248 | the first error is the one returned, whatever fails after it |
| Balances.AbandonedMayFail | internal/services/wallet_backend.go:186-248 | once the caller has given up, a group of any addresses may fail with any error, so "while the caller lives" is needed |
| Hex.EncodeWrites | internal/auth/parser.go:101-107 | two lower-case digits for each byte, the high one first |
| Hex.DecodeOfEncode | internal/auth/parser.go:101-120 | decoding an encoded key gives the key |
| Hex.DecodesHexDigits | internal/auth/parser.go:109-120 | exactly pairs of hexadecimal digits decode, and their case does not matter |
| Hex.SameBytesIffSameLower | internal/auth/parser.go:101-120 | two subjects denote the same key exactly when they differ at most in case |
| AuthToken.OtherOutcomesImplySignature | internal/auth/parser.go:35-108 | every outcome but malformed, bad_subject and bad_signature means the subject's key signed the token, and carries the signed issuer |
| AuthToken.UnsignedTokensLookAlike | internal/auth/parser.go:49-92 | an unsigned token fails the same way for all clocks, requests and leeways; as bad_signature when its subject is a key |
| AuthToken.UnsignedReasons | internal/auth/parser.go:36-92 | malformed, bad_subject and bad_signature are told apart by the token alone |
| AuthToken.FailureReasons | internal/auth/parser.go:60-99 | the exact condition of every reason a signed token can fail for; expired wins over clock_ahead |
| AuthToken.UserIdIsCanonical | internal/auth/parser.go:101-107 | the user id is the lower-case form of the subject's key |
| AuthToken.ExpTooFarIsUnreachable | internal/auth/claims.go:80-107 | the last clock check can fail exactly when maxLifetime + leeway wraps |
| AuthToken.LastClockCheckReports | internal/auth/claims.go:80-107 | Validate reports clock_ahead exactly when that check is reached and fails, or iat lies ahead |
| AuthToken.ConfiguredLeewaysFit | cmd/serve/serve.go:51-53 | no configurable leeway wraps |
| AuthToken.AcceptedIff | internal/auth/claims.go:47-117 | accepted exactly when signed, bound to the request, and in time at both clock reads |
| AuthToken.AcceptanceIsAnInterval | internal/auth/parser.go:60-99 | anything between two accepted clock readings is accepted |
| AuthToken.AcceptanceIsMonotone | internal/auth/claims.go:80-107 | a wider leeway accepts at least as much |
| AuthToken.ReplayWindow | internal/auth/claims.go:12-31 | acceptances are less than 2 * leeway + MaxTokenLifetime apart, plus the first one's own delay between clock reads |
| AuthToken.WindowFromFirstRead | internal/auth/claims.go:12-31 | measured from the first read, with a given delay between the reads, the window is kept exactly when the token's lifetime plus that delay, or its time from nbf to exp, is at most MaxTokenLifetime |
| BearerHeader.HeaderReads | internal/auth/verifier.go:48-66 | no token exactly under another scheme, an empty credential exactly when only white space follows the scheme, else exactly what follows it, trimmed |
| BearerHeader.ReadsWhatItCarries | internal/auth/verifier.go:48-66 | so for every header |
| AuthGate.Request.LimitBody | internal/api/middleware/body_size_limit.go:17-31 | a body longer than the limit, 1 MiB by default, is cut there and ends in an error, any other passes unchanged |
| AuthGate.Request.ReadAndReset | internal/auth/verifier.go:84-94 | a readable body is returned and put back as it was, an unreadable one stays drained |
| AuthGate.Gate.VerifyHTTPRequest | internal/auth/verifier.go:47-79 | header, body and token in the code's order |
| AuthGate.Gate.Serve | internal/api/middleware/auth.go:51-216 | the decision, one count per request, and the body as it came whenever the next handler runs |
| AuthGate.VerifiesIffAuthentic | internal/auth/verifier.go:47-79 | verification succeeds exactly for a signed token, bound to this request and in time, and yields its subject in lower case |
| AuthGate.SignedClaimsAre | internal/auth/verifier.go:47-79 | the claims acted on are those of the token that the header carries, signed by its subject's key, on a request whose body can be read |
| AuthGate.WhoGetsThrough | internal/api/middleware/auth.go:54-213 | with a user id exactly for authentic tokens; anonymously exactly in permissive mode when the header names no bearer scheme, or carries a signed token that is late or early |
| AuthGate.HowOthersAreRefused | internal/api/middleware/auth.go:72-213 | with 413 or 500 exactly when a token is carried and the body is too large or cannot be read, else with 401 |
| AuthGate.StrictServesLess | internal/api/middleware/auth.go:63-187 | what strict serves permissive serves identically; they differ exactly on the anonymous cases |
| AuthGate.ClockErrorIffClockFailure | internal/api/middleware/auth.go:72-159 | the error types that permissive mode lets through are returned exactly for signed tokens that are late, or early, on the server's clock |
| AuthGate.UnsignedIsRefused | internal/api/middleware/auth.go:72-190 | an unsigned token is refused with 401 in both modes, and counted as bad_signature |
| AuthGate.OversizedBody | internal/api/middleware/auth.go:192-201 | a body over the limit with a bearer credential is answered 413 in both modes; without one the body is not read |
| AuthGate.RecordedIsAllowed | internal/metrics/metrics.go:86-93 | the label triple of every request lies in one fixed set, and its result tells the decision |
| AuthGate.ClockReasonsMeanIt | internal/api/middleware/auth.go:128-163 | a request counted as expired or clock_ahead carried a signed token that is late, or early, on the server's clock |
| AuthGate.TokenReasonsMeanIt | internal/auth/errors.go:82-99 | every other reason label says what was wrong with the token, its subject, signature or binding |
| AuthGate.LabelsDiffer | internal/auth/errors.go:121-135 | no two kinds of failure share a reason label |
| AuthGate.CountersAddUp | internal/metrics/metrics.go:154-161 | over any run the counters sum to the number of requests |
| AuthGate.PermittedCount | internal/api/middleware/auth.go:159-165 | in the counter after any run, invalid_permitted counts exactly the signed tokens with a wrong clock in permissive mode, authenticated the authentic ones, anonymous those without a token, rejected the rest |
| AuthGate.ClientIsTokens | internal/auth/issuer.go:18-33 | the client label of every token that parses is that of its own issuer |
| AuthGate.PermittedClientIsSigned | internal/api/middleware/auth.go:111-120 | the client label of a permitted failure is the signed issuer's |
| Truncation.CharsAreScalars | internal/api/middleware/auth.go:24-31 | the characters of the model are the UTF-8 encodings of the Unicode scalar values |
| Truncation.ShortStringsStay | internal/api/middleware/auth.go:27-29 | a string within the bound is logged as it is |
| Truncation.TruncatesAtLastBoundary | internal/api/middleware/auth.go:24-31 | a too long valid string is cut at its last character boundary within max bytes, and marked |
| Truncation.CutIsValidAndBounded | internal/api/middleware/auth.go:24-31 | a cut of any bytes is valid UTF-8 and at most max plus the marker |
| Truncation.ToValidFixesExactlyValid | internal/api/middleware/auth.go:30-30 | removing invalid bytes changes exactly the invalid strings |
| ResponseWriters.BufferedResponseWriter.WriteHeader | internal/api/middleware/buffered_response.go:28-32 | the last status before a flush is kept |
| ResponseWriters.BufferedResponseWriter.Write | internal/api/middleware/buffered_response.go:35-40 | data is buffered before a flush and sent on after it |
| ResponseWriters.BufferedResponseWriter.Flush | internal/api/middleware/buffered_response.go:53-61 | status and buffer go out once; a refused status panics and sends nothing |
| ResponseWriters.BufferedResponseWriter.Reset | internal/api/middleware/buffered_response.go:64-68 | an empty buffer with status 200 again |
| ResponseWriters.FlushIsIdempotent | internal/api/middleware/buffered_response.go:53-61 | flushing twice is flushing once |
| ResponseWriters.SentIsSent | internal/api/middleware/buffered_response.go:28-68 | over any sequence of operations one status goes out at most and nothing sent is taken back |
| ResponseWriters.AfterFlush | internal/api/middleware/buffered_response.go:28-61 | after a flush writes go straight to the client in order, and neither a status nor another flush does anything |
| ResponsePipeline.CustomHandler | internal/api/handlers/custom.go:20-34 | an error replaces what was buffered by its own status and rendering |
| ResponsePipeline.Metrics | internal/api/middleware/metrics.go:34-56 | the gauge is restored on every way out, the buffered status counted on normal ones |
| ResponsePipeline.Logging | internal/api/middleware/logging.go:14-24 | one buffer per request, flushed once unless the handler panics |
| ResponsePipeline.Recover | internal/api/middleware/recover.go:13-59 | a panic becomes a 500 on the unbuffered writer, an abort panics on |
| ResponsePipeline.Serve | internal/api/serve.go:305-317 | the whole chain on a fresh connection computes the specified response, gauge and counter |
| ResponsePipeline.SinceResetIsLongestTail | internal/api/middleware/buffered_response.go:64-68 | what counts is the longest tail of operations without a reset |
| ResponsePipeline.ClientReceivesIntended | internal/api/middleware/logging.go:22-24 | without a panic: one status and one body, from the last reset on or the rendered error only |
| ResponsePipeline.InformationalGoesOutFirst | internal/api/middleware/buffered_response.go:53-61 | an informational status that the handler left set goes out before the response, and nothing else does |
| ResponsePipeline.ErrorsReachTheClient | internal/api/handlers/custom.go:20-34 | an API error is received and counted with its own status and rendering, any other error as a 500, whatever was written before |
| ResponsePipeline.AnswersReachTheClient | internal/api/middleware/buffered_response.go:28-61 | the status set last and the data written since the last reset are received: with a final status as it is, behind an informational one with 200, with no valid one as Recover's 500 |
| ResponsePipeline.ClientReceivesRecovery | internal/api/middleware/recover.go:16-55 | after a panic only Recover's 500, after an abort nothing |
| ResponsePipeline.RecordedIsReceived | internal/api/middleware/metrics.go:41-53 | the counted code is the received one exactly for final statuses |
| ResponsePipeline.EarlierWritesAreInvisible | internal/api/handlers/custom.go:22-32 | nothing written before the last reset, an error or a panic shows |
| MiddlewareChain.Chain | internal/api/middleware/middleware.go:11-19 | the reverse loop nests the first middleware outermost |
| MiddlewareChain.ChainIsThePipeline | internal/api/serve.go:305-317 | the five layers chained in their order are the pipeline |
| MiddlewareChain.OtherOrderMiscounts | internal/api/middleware/metrics.go:45-49 | with Metrics outside Logging every answer would count as 200 |
| MiddlewareChain.UnbufferedErrorsMix | internal/api/handlers/custom.go:20-34 | without the buffer an error's rendering would follow the data already written, under its status |
| MiddlewareChain.UnbufferedPanics | internal/api/middleware/buffered_response.go:28-32 | nor would a handler get past a status that net/http refuses |
| History.AtoiReads | internal/api/handlers/account_history.go:78-79 | an optional sign and digits that fit 64 bits are that number, nothing else is read |
| History.NewHandler | internal/api/handlers/account_history.go:41-59 | page sizes are accepted exactly when 1 <= default <= maximum <= 100 |
| History.ParseRequest | internal/api/handlers/account_history.go:65-121 | accepted exactly when every part is well-formed and the range not inverted, and then with exactly what was written or its default |
| History.LimitBounds | internal/api/handlers/account_history.go:76-87 | a written limit is used exactly between 1 and the maximum |
| History.BuildResponse | internal/services/wallet_backend.go:279-345 | the edges that carry a transaction, in order; a cursor is passed on exactly with its flag, and nothing without page information |
| History.NextCollectsAll | internal/services/wallet_backend.go:256-294 | where no page but the last ends on an empty cursor, following next_cursor to the end collects every transaction exactly once in order |
| History.ClientFinishes | internal/services/wallet_backend.go:279-294 | and then the end is always reached |
| History.PrevCollectsAll | internal/services/wallet_backend.go:256-294 | where no page but the last one begins at an empty cursor, going back until has_previous is false collects everything before the cursor |
| History.NextWorksExactlyWhen | internal/api/handlers/account_history.go:98-100 | a client that follows next_cursor ends with everything exactly when no page but the last ends on an empty cursor, and otherwise never sees an end |
| History.PrevEndsExactlyWhen | internal/api/handlers/account_history.go:98-100 | a client that goes back is told of an end exactly when no page but the last begins at an empty cursor, on the way from its cursor or on the way from the end of the list |
| History.PrevWorksExactlyWhen | internal/api/handlers/account_history.go:98-100 | it then has everything before its cursor once, exactly when that holds on the way from its cursor, or on the way from the end and nothing from the empty cursor on carries a transaction |
| History.PrevWorksForFullPages | internal/api/handlers/account_history.go:98-100 | where every edge carries a transaction, exactly when no page but the last begins at an empty cursor |
| History.PrevWorksInPages | internal/api/handlers/account_history.go:98-100 | for all lists, in no more requests than there are pages before the cursor, exactly when no page but the last begins at an empty cursor |
| History.NilTailForgives | internal/api/handlers/account_history.go:98-100 | a list of four edges where an empty cursor does no harm |

## Left out

- PriceTheorems.OthersUnaffected: keeps the request's own DoChan calls in the run, because starting or joining a shared fetch is how requests are meant to affect each other.
- PriceTheorems.NothingLostWithinBudget: says nothing about requests that end after their budget, whose misses may be null for lack of time.
- Redis: a SET takes effect at the instant its context is checked, and only one process uses the store; other instances sharing it are not modelled.
- Prices and the 24h change are opaque strings; their floating-point arithmetic and formatting are not modelled.
- PriceAges.PriceAgeBounded: carries how late fetches were delivered as a parameter, because the budget cancels the upstream calls but does not bound the scheduling between their end and the delivery.
- PriceOrchestrator: an upstream reply counts whenever it arrives; that the asset call's terminal error cancels the candles call is not modelled, since the candles are then not read.
- Collectibles: contexts are not cancelled and tasks do not panic. A queued task may start in any order, which allows more schedules than the pools' own queues.
- Collectibles: names, symbols, owners and URIs of what was fetched are not carried; a fetched token is its id.
- Balances: the fetch of one account, several upstream pages long, is one step; an interrupted fetch may fail with any error but account-not-found.
- Unmarshalling, Prometheus, logging output, durations, response headers and HTTP transport.
- AuthToken: JSON parsing, Ed25519, SHA-256 and strkey are parameters about which nothing is assumed. Instants are unbounded integers; the durations in error messages are not modelled.
- ResponseWriters: HEAD requests, Content-Length, hijacking and write errors of the connection are not modelled, and no handler flushes the buffer itself.
- History: the time filter is taken to select the same list for every page; the state-change mapper is not modelled.
- Amounts: amount parsing follows github.com/stellar/go/amount, whose source is not part of this model; asset types and the fields copied unchanged are not modelled.
- Health, protocols, feature flags, whoami, ledger keys, database pool, configuration and command line.
