# USDC vault front end: a Dafny model of its decision logic

This project models the logic of a React front end for a single-vault USDC
yield product on Solana. It covers the parts with rules worth stating:

- **Amount and unit helpers** (`VaultUtils`): the ordered validation of a
  typed amount, the conversion between whole USDC and base units, and the
  operation-prefixed error text. They rest on a model of JavaScript's
  `parseFloat` and `String.prototype.trim` (`JsText`).
- **Vault-operations controller** (`VaultOperations`): the hook's state
  (vault, balances, `loading`, error, owner flag, last signature) and its two
  refs (load in flight, loaded once). Load, initialize, fix authorities,
  deposit, withdraw and clear-signature are transitions over that state.
  Each transition takes the wallet's, the program client's and the ledger's
  answers as explicit inputs. A run of such transitions is a sequence of
  events.
- **Aggregator router** (`AggregatorRouter`): best by APY with live sources
  first, best net APY for an amount, route steps, routing instructions, the
  APY-sorted list, and recommendations with warnings.
- **APY service** (`ApyService`): a per-protocol cache with time stamps,
  kept in insertion order. It also covers the mapping of proxy answers and
  failures to records, the bulk fetch with its per-protocol fallback, and
  the best-APY pick. Each request's outcome is an input. The URLs requested
  are part of the result.
- **Live-rates cache** (`LiveRates`): one storage slot with a 15-minute
  expiry, the cache-first fetch, the highest APY, the live entries, and a
  protocol's display configuration.
- **Application shell** (`AppRouting`): the redirect effect, "get started",
  the loading gate, and the screen each path shows.

Modelling choices:
- APYs, fees, amounts and balances are exact reals.
- Time is an input `now` in milliseconds.
- Every operation is one atomic step from its call to its last state update.
- Shared pieces live in `Base`: an optional value, order-keeping filter, and
  the first-maximum index that a `reduce` with a strict `>` computes.

## Behaviour of the code worth knowing

- The hook keeps no "initializing" flag. Its only guards are the in-flight
  and loaded-once refs.
- Nothing resets the vault, the balances or the error when the wallet
  disconnects or switches account. The connect effect loads once per mounted
  hook (`AutoLoadAtMostOnce`).
- The insufficient-balance message interpolates the raw numbers, not a
  six-decimal rendering. The model keeps both numbers
  (`ErrorText.InsufficientBalance`), and `Render` turns them into text with
  the caller's number-to-text rule.

## Model

| member | source | states |
|---|---|---|
| JsText.ParseFloat | src/utils/vault.ts:70 | `parseFloat` reads the longest decimal prefix after leading whitespace; whitespace-only text reads as NaN |
| JsText.TrimEmptyIffAllSpace | src/utils/vault.ts:66 | `trim()` yields "" exactly when every character is ECMAScript whitespace or a line terminator |
| JsText.ParseTrailingText | src/utils/vault.ts:70 | "12abc" reads as 12: trailing text after the number is ignored |
| JsText.NegativeParses | src/utils/vault.ts:70 | a minus sign in front of text that starts with neither whitespace nor a sign negates what that text reads as |
| JsText.ParseNatToString | src/utils/vault.ts:70 | the decimal text of every natural number reads back as that number |
| VaultUtils.ValidateAmount | src/utils/vault.ts:65-84 | blank text is "Amount is required", and only blank text gets that message. Otherwise NaN gives "Invalid amount format", ≤ 0 gives "Amount must be greater than 0", and > 1,000,000 gives "Amount is too large". The result is Valid exactly when the parse is a finite number in (0, 1,000,000] |
| VaultUtils.ValidateUpperBound | src/utils/vault.ts:79-83 | "1000000" is valid: the bound is inclusive |
| VaultUtils.ValidateAboveUpperBound | src/utils/vault.ts:79-81 | "1000001" is "Amount is too large" |
| VaultUtils.ValidateZero | src/utils/vault.ts:75-77 | "0" is "Amount must be greater than 0" |
| VaultUtils.ValidateNegative | src/utils/vault.ts:75-77 | "-1" is "Amount must be greater than 0" |
| VaultUtils.ValidateBlank | src/utils/vault.ts:66-68 | "" and " \t " are "Amount is required" |
| VaultUtils.ValidateNonNumeric | src/utils/vault.ts:70-73 | "abc" is "Invalid amount format" |
| VaultUtils.ValidateNumericPrefix | src/utils/vault.ts:70-84 | "12abc" is valid and names 12 |
| VaultUtils.ValidateSmallestUnit | src/utils/vault.ts:65-84 | "0.000001" is valid and converts to exactly one base unit |
| VaultUtils.LamportsToUsdc | src/utils/vault.ts:31-33 | the token amount times 10^6 is the base-unit amount |
| VaultUtils.UsdcToLamports | src/utils/vault.ts:38-40 | the result r satisfies r ≤ x·10^6 < r+1, i.e. floor(x·10^6) |
| VaultUtils.UsdcToLamportsMonotone | src/utils/vault.ts:38-40 | more tokens never convert to fewer base units |
| VaultUtils.LamportsRoundTrip | src/utils/vault.ts:31-40 | base units → tokens → base units returns the same integer |
| VaultUtils.UsdcRoundTripRoundsDown | src/utils/vault.ts:31-40 | tokens → base units → tokens never exceeds the input and loses less than 10^-6 |
| VaultUtils.FormatErrorMessage | src/utils/vault.ts:45-60 | output starts with "<operation> failed: ". Then comes the check-the-logs message if there are logs, else the message, else the `toString` text, else "Unknown error occurred" |
| VaultUtils.FailureNamesItsOperation | src/utils/vault.ts:46 | failure messages of two different controller operations never coincide |
| VaultOperations.Render | src/hooks/useVaultOperations.ts:247 | a plain message is shown as it is. The insufficient-balance text is the fixed prefix, then the balance as text, then the fixed middle, the requested amount as text and the fixed suffix |
| VaultOperations.StartLoad | src/hooks/useVaultOperations.ts:31-38 | a starting load raises both refs and recomputes ownership from the key; nothing else changes |
| VaultOperations.ToVaultInfo | src/hooks/useVaultOperations.ts:54-62 | vault balance and supply are the raw amounts divided by 10^6; keys and deposit time are copied |
| VaultOperations.TokenBalance | src/hooks/useVaultOperations.ts:71-88 | a found token account gives raw/10^6; a missing one gives 0, not an error |
| VaultOperations.Metadata | src/hooks/useVaultOperations.ts:42-51 | the account read under the first name is used when that read returns. When it throws, the read under the second name is used; when both throw, there is no account |
| VaultOperations.FinishLoad | src/hooks/useVaultOperations.ts:40-99 | the in-flight flag ends cleared, and only the vault and balances change besides. The vault is the converted metadata account, or none. With a key and a connection, USDC is the found account's balance or 0, and yUSDC is read only when a vault exists, else 0. Without a key or connection the balances are untouched |
| VaultOperations.InitializeData | src/hooks/useVaultOperations.ts:28-100 | no-op when disconnected, without a program, or while a load is in flight. Otherwise the in-flight flag is cleared, and `loading`, error and signature are untouched. An absent metadata account (null, or both names throwing) gives no vault and a yUSDC balance of 0; a present one gives the converted vault. Balances are loaded only with a key and a connection |
| VaultOperations.OnConnected | src/hooks/useVaultOperations.ts:139-143 | the connect effect does nothing once a load has started or while disconnected. It also does nothing while the load's gate is closed (no program, or a load in flight), so it fires again later. Otherwise it is a load |
| VaultOperations.UsdcLookupFailure | src/hooks/useVaultOperations.ts:251-261 | "could not find account" in the message gives the no-account text. Otherwise a `TokenAccountNotFoundError` gives the not-found text. Anything else gives the balance-check prefix followed by the message; with an empty message, by the `toString` text; with neither, the deposit fails with the formatted TypeError instead |
| VaultOperations.Settle | src/hooks/useVaultOperations.ts:172-185 | after a submission, exactly one call is recorded and `loading` ends false. Failure sets the formatted error and changes nothing else; success keeps the cleared error, stores the signature only when asked, and the state is then exactly the vault load run from there |
| VaultOperations.HandleInitialize | src/hooks/useVaultOperations.ts:146-186 | no program or key: nothing happens. Non-owner: the owner-only error, with no call and no `loading` change. Owner: one initialize call, `loading` ends false, success clears the error without storing the signature and reloads the vault, failure sets the formatted error and changes nothing else |
| VaultOperations.ConfirmedSubmissionReloads | src/hooks/useVaultOperations.ts:175-178 | after a confirmed submission, when the load's gate passes, the vault and the USDC balance are the reloaded ones and the load has ended; when it does not, vault and balances are left as they were |
| VaultOperations.HandleFixAuthorities | src/hooks/useVaultOperations.ts:189-220 | non-owner or no program: no state change at all. Owner: one fix call, `loading` ends false, success clears the error without storing the signature and reloads the vault, failure sets the formatted error and changes nothing else |
| VaultOperations.HandleDeposit | src/hooks/useVaultOperations.ts:223-327 | the guard fails: nothing happens. Invalid amount: only the error is set, with no call. A failed lookup gives its message, no call, and changes nothing else. A balance strictly below the amount gives the insufficient-balance error and no call. Otherwise exactly the deposit of floor(x·10^6) is submitted; success stores the signature and reloads the vault, failure sets the formatted error and changes nothing else |
| VaultOperations.HandleWithdraw | src/hooks/useVaultOperations.ts:330-378 | silent when the guard fails or no vault is loaded. Invalid amount: only the error is set. Otherwise exactly one withdrawal of floor(x·10^6) is submitted; success stores the signature and reloads the vault, failure sets the formatted error and changes nothing else |
| VaultOperations.ClearTransactionSignature | src/hooks/useVaultOperations.ts:402 | the signature is cleared and every other field is unchanged |
| VaultOperations.LoadIsNotReentrant | src/hooks/useVaultOperations.ts:29-31 | while a load is in flight, any further load leaves the state as it is |
| VaultOperations.DepositWithinBalance | src/hooks/useVaultOperations.ts:241-276 | a submitted deposit never asks for more base units than the USDC account holds |
| VaultOperations.DepositSubmitsIff | src/hooks/useVaultOperations.ts:223-310 | a deposit reaches the ledger exactly when all of these hold: the guard passes, the amount is valid, the lookup succeeds, and the balance covers the amount (an equal balance suffices) |
| VaultOperations.DepositCreatesAccountIff | src/hooks/useVaultOperations.ts:264-310 | the account-creation instruction is prepended, in one wallet transaction, exactly when the yUSDC account is missing |
| VaultOperations.SubmittedAmountRoundsDown | src/hooks/useVaultOperations.ts:276 | the submitted base units name the typed amount to within one base unit and never exceed it |
| VaultOperations.Apply | src/hooks/useVaultOperations.ts:97-99 | no operation leaves a load in flight or `loading` raised if it was not before, and none resets the loaded-once ref |
| VaultOperations.RunStaysQuiet | src/hooks/useVaultOperations.ts:183-185 | every run of operations from a quiet state ends with `loading` false and no load in flight |
| VaultOperations.AutoLoadAtMostOnce | src/hooks/useVaultOperations.ts:138-143 | along any run, whatever the wallet does, the connect effect starts at most one load, and none once a load has started |
| VaultOperations.InitialRunsQuiet | src/hooks/useVaultOperations.ts:16-25 | from the initial state, every run ends quiet and has auto-loaded at most once |
| AggregatorRouter.ApyPool | src/utils/aggregatorRouter.ts:29-45 | the ranking pool holds only entries with APY > 0. If any of those is live, the pool is exactly the live ones; otherwise it is all of them |
| AggregatorRouter.GetBestByApy | src/utils/aggregatorRouter.ts:26-51 | null exactly when no entry has APY > 0. Otherwise the result has APY > 0, is live when any valid entry is live, and has the highest APY of its pool, the first such entry winning ties |
| AggregatorRouter.Eligible | src/utils/aggregatorRouter.ts:64-66 | an entry without a minimum deposit, or with a minimum of 0, admits every amount; a nonzero minimum admits exactly the amounts at least as large |
| AggregatorRouter.EligibleUpward | src/utils/aggregatorRouter.ts:64-66 | an entry that admits an amount admits every larger amount |
| AggregatorRouter.Eligibles | src/utils/aggregatorRouter.ts:64-66 | exactly the entries whose minimum deposit is absent, 0, or at most the amount |
| AggregatorRouter.NetApy | src/utils/aggregatorRouter.ts:94-103 | the net APY is the gross less the fee's percentage of it; a missing fee leaves the gross |
| AggregatorRouter.NetApyBounds | src/utils/aggregatorRouter.ts:94-103 | with a fee in [0, 100] the net APY lies between 0 and the gross; a positive gross is kept whole exactly when the fee is missing or 0 |
| AggregatorRouter.NetApyFeeMonotone | src/utils/aggregatorRouter.ts:94-103 | a higher fee never gives a higher net APY |
| AggregatorRouter.BestForAmount | src/utils/aggregatorRouter.ts:57-89 | null exactly when nothing is eligible. Otherwise the result is eligible and its net APY is the maximum, the first winning ties. The reasoning is "Default choice" exactly when no eligible entry beats the first; otherwise it carries the winning net APY |
| AggregatorRouter.GetBestForAmount | src/utils/aggregatorRouter.ts:70-82 | the loop that keeps the first entry unless a later one is strictly better computes `BestForAmount` |
| AggregatorRouter.GenerateRoute | src/utils/aggregatorRouter.ts:138-179 | steps 1 and 2 are fixed and the last step is numbered with the route's length. The length is 6 for tulip, francium, kamino and solend, 7 for marinade, and 5 otherwise |
| AggregatorRouter.MiddleStepsNumbered | src/utils/aggregatorRouter.ts:144-174 | the protocol-specific steps are numbered 3, 4, ... in order |
| AggregatorRouter.RouteIsNumbered | src/utils/aggregatorRouter.ts:138-179 | step i of every route starts with "i. " |
| AggregatorRouter.GasEstimate | src/utils/aggregatorRouter.ts:184-191 | each step of the route adds 0.0005 to the base of 0.001 |
| AggregatorRouter.RoutingInstructions | src/utils/aggregatorRouter.ts:108-133 | null exactly when nothing is eligible. Otherwise it names an eligible aggregator whose expected APY is the best net APY, and the gas estimate is 0.001 + 0.0005 per step (0.0035, 0.004 or 0.0045). Name, APY, route and reasoning are those of the best-for-amount choice, the route generated for it |
| AggregatorRouter.SortByApyDesc | src/utils/aggregatorRouter.ts:196-200 | the sorted list is a permutation of the input: same length, same entries with the same multiplicities |
| AggregatorRouter.SortIsSorted | src/utils/aggregatorRouter.ts:196-200 | the sorted list is in non-increasing APY order |
| AggregatorRouter.InsertKeepsSorted | src/utils/aggregatorRouter.ts:197-199 | inserting one entry into an APY-sorted list keeps it sorted |
| AggregatorRouter.Warnings | src/utils/aggregatorRouter.ts:218-231 | the small-deposit warning appears iff the amount is < 100, the large iff > 10000, and the experimental one iff the protocol is 'experimental'. Nothing else appears, each at most once, and the experimental warning comes last |
| AggregatorRouter.Alternatives | src/utils/aggregatorRouter.ts:213-216 | two entries, or all there are when fewer than two entries are named unlike the best; all from the list, none named like the best, and none taken more often than it occurs among those entries. No entry named unlike the best that was left out has a higher APY than one taken |
| AggregatorRouter.SortKeepsOthers | src/utils/aggregatorRouter.ts:213-216 | sorting first does not change which entries are named unlike the best, nor how often each occurs |
| AggregatorRouter.TakeIsTop | src/utils/aggregatorRouter.ts:216 | in an APY-sorted list, no entry left out by `slice(0, n)` has a higher APY than one kept |
| AggregatorRouter.GetRecommendations | src/utils/aggregatorRouter.ts:205-238 | null exactly when nothing is eligible. The best is the best-for-amount choice. There are 2 alternatives, or all there are when fewer entries are named unlike the best; all are from the list, none is named like the best, none is taken more often than it occurs among them, and none left out has a higher APY than one taken. The small warning appears iff the amount is < 100, the large iff > 10000 (never both), and the experimental one iff the best's protocol is 'experimental'. No other text appears, none twice, and the experimental warning comes last |
| AggregatorRouter.FilterKeepsOrder | src/utils/aggregatorRouter.ts:214-216 | filtering an APY-sorted list keeps it sorted |
| AggregatorRouter.AlternativesSorted | src/utils/aggregatorRouter.ts:213-216 | the alternatives are in non-increasing APY order |
| AggregatorRouter.AlternativesRanked | src/utils/aggregatorRouter.ts:213-216 | two alternatives come in non-increasing APY order |
| AggregatorRouter.DefaultBestByApy | src/utils/aggregatorRouter.ts:244-298 | with the built-in list and no live data, the best by APY is Kamino Finance |
| AggregatorRouter.OnlyApyCandidate | src/utils/aggregatorRouter.ts:26-51 | with no live entry, a yielding entry whose APY no other entry reaches is the best by APY |
| AggregatorRouter.OnlyCandidate | src/utils/aggregatorRouter.ts:57-89 | an eligible entry whose net APY no other eligible entry reaches is the best for the amount |
| AggregatorRouter.DefaultNetApys | src/utils/aggregatorRouter.ts:245-296 | the built-in entries' net APYs are 8.466, 9.1448, 10.0192, 7.7766 and 8.8555 |
| AggregatorRouter.DefaultBestForFive | src/utils/aggregatorRouter.ts:244-298 | for 5 USDC, Kamino's minimum of 10 excludes it and Francium is chosen |
| AggregatorRouter.DefaultBestForTen | src/utils/aggregatorRouter.ts:244-298 | for 10 USDC, Kamino Finance is chosen |
| AggregatorRouter.DefaultTooSmall | src/utils/aggregatorRouter.ts:252-292 | every built-in entry asks at least 1, so 0.5 USDC gets no choice |
| ApyService.Lookup | src/services/apyService.ts:66 | a key is absent exactly when it is not among the cache's keys |
| ApyService.Store | src/services/apyService.ts:109 | after setting a key, it maps to the new entry and every other key is unchanged |
| ApyService.StoreKeyOrder | src/services/apyService.ts:109 | setting an existing key keeps the key order; a new key goes last |
| ApyService.ClearCache | src/services/apyService.ts:192-194 | after clearing, no key maps to anything |
| ApyService.GetCachedApys | src/services/apyService.ts:182-187 | exactly the records of entries younger than 5 minutes |
| ApyService.GetCachedApysAppend | src/services/apyService.ts:182-187 | the records come in the cache's insertion order: a joined cache gives the records of each part in turn |
| ApyService.GetCachedApysCount | src/services/apyService.ts:182-187 | each fresh entry gives exactly one record: their number is the number of fresh entries |
| ApyService.ClearedCacheIsEmpty | src/services/apyService.ts:182-194 | after `clearCache`, `getCachedAPYs` returns nothing |
| ApyService.FindConfig | src/services/apyService.ts:73 | a configuration is found exactly for a configured protocol, and it is that protocol's |
| ApyService.FromResponse | src/services/apyService.ts:99-106 | the record has the configured name; apy is the answer's unless it is 0, then the fallback; it is live iff source ≠ 'fallback' and there is no error; the time stamp text and the source are copied from the answer |
| ApyService.FallbackData | src/services/apyService.ts:117-124 | a failure gives the configured name and protocol, the fallback APY, not live, source 'fallback', stamped now |
| ApyService.FromBulkItem | src/services/apyService.ts:147-156 | the name is the configured one, else the raw protocol. The apy is the answer's, else the configured fallback, else 0. Liveness follows the same rule as for single answers, and the time stamp text and source are copied |
| ApyService.FetchApy | src/services/apyService.ts:64-128 | a fresh cache entry is returned with no request. An unconfigured protocol gives null with no request. Otherwise exactly the endpoint is requested: an answer is mapped and cached under the protocol at `now`, and a failure gives the fallback record with the cache unchanged |
| ApyService.FetchedIsCached | src/services/apyService.ts:64-71 | after a successful fetch, the next five minutes of fetches for that protocol return the same record with no request |
| ApyService.FetchApyKeepsNames | src/services/apyService.ts:99-109 | a fetch keeps every cached record of a configured protocol named as configured, and returns the configured name |
| ApyService.FetchEach | src/services/apyService.ts:169-176 | the per-protocol fallback returns, in configuration order, exactly the record a single fetch of each protocol from the starting cache returns; with distinct protocols, the requests are those fetches' requests in turn |
| ApyService.EachRecordAt | src/services/apyService.ts:169-176 | the fallback's i-th record is what fetching the i-th configured protocol alone returns |
| ApyService.FetchLeavesOthersAlone | src/services/apyService.ts:64-109 | a fetch for one protocol leaves every other key's entry alone, so a later fetch of another protocol returns and requests the same as it would have before; a protocol's record does not change by fetching it first |
| ApyService.EachAfterFetch | src/services/apyService.ts:169-176 | a fetch made before the fallback does not change the fallback's records, nor, for a protocol outside the list, its requests |
| ApyService.FetchEachKeepsNames | src/services/apyService.ts:99-109 | the fallback keeps every cached record of a configured protocol named as configured |
| ApyService.EachRecordNames | src/services/apyService.ts:169-176 | when every protocol of the list is configured as listed, the fallback's i-th record carries the i-th configuration's name |
| ApyService.FetchEachCaches | src/services/apyService.ts:169-176 | after the per-protocol fallback, each listed protocol holds in the cache what its own fetch from the starting cache files there; every other key holds what it held |
| ApyService.FallbackCache | src/services/apyService.ts:164-176 | after a bulk failure, each configured protocol's cache entry is what its own fetch files, and other keys are unchanged |
| ApyService.FallbackRecordsAreCached | src/services/apyService.ts:99-109 | a fallback record that came from the protocol's endpoint is among the cached records for the next five minutes |
| ApyService.StoreBulk | src/services/apyService.ts:146-162 | the bulk answer's items are mapped one for one, in order, and nothing is requested |
| ApyService.StoreBulkFiled | src/services/apyService.ts:147-159 | every protocol of the bulk answer is cached, stamped `now` |
| ApyService.StoreBulkHeadWins | src/services/apyService.ts:147-159 | an item of the bulk answer that no later item of its protocol follows is the one cached for that protocol, shown for the first item |
| ApyService.StoreBulkLastWins | src/services/apyService.ts:147-159 | the record cached for a protocol is the mapped last item of that protocol |
| ApyService.StoreBulkUntouched | src/services/apyService.ts:146-162 | keys of protocols missing from the bulk answer are left as they were |
| ApyService.StoreBulkKeepsNames | src/services/apyService.ts:147-159 | the bulk path keeps cached records of configured protocols named as configured |
| ApyService.FetchAllApys | src/services/apyService.ts:133-177 | the bulk URL is always requested first. A bulk answer is returned mapped item by item and cached, with no other request. A bulk failure gives exactly the four configured protocols' records, in order, each what a single fetch of that protocol from the starting cache returns, and requests the bulk URL followed by those fetches' requests |
| ApyService.BulkRecordsAreCached | src/services/apyService.ts:146-187 | every record the bulk path returns, unless overwritten by a later item, is among the cached records for the next five minutes |
| ApyService.ConfigsFindThemselves | src/services/apyService.ts:31-56 | the configured protocols are distinct: looking one up finds its own configuration |
| ApyService.GetBestApy | src/services/apyService.ts:199-206 | null exactly when the fetched list is empty; otherwise the first record with the highest APY; never null when the per-protocol fallback ran |
| LiveRates.GetCachedData | src/components/dashboardcomponents/LiveRatesDisplay.tsx:59-79 | a hit exactly when a record is stored and now is before its expiry; it returns the stored data and time. Any miss leaves the slot empty, removing an expired or unreadable record |
| LiveRates.SetCachedData | src/components/dashboardcomponents/LiveRatesDisplay.tsx:81-92 | the stored record expires 15 minutes after `now` |
| LiveRates.ReadBackWithinExpiry | src/components/dashboardcomponents/LiveRatesDisplay.tsx:57-92 | what was written reads back unchanged exactly within the next 15 minutes |
| LiveRates.ReadIsIdempotent | src/components/dashboardcomponents/LiveRatesDisplay.tsx:59-79 | reading the slot twice at one moment equals reading it once |
| LiveRates.FetchApyData | src/components/dashboardcomponents/LiveRatesDisplay.tsx:94-125 | `loading` always ends false. With the cache enabled and valid there is no request and the view comes from the cache. Otherwise the endpoint is requested: success shows and stores the answer, failure shows the error and writes nothing |
| LiveRates.ForcedRefreshServesLaterLoads | src/components/dashboardcomponents/LiveRatesDisplay.tsx:100-118 | after a successful forced refresh, a cache-first load within 15 minutes makes no request and shows the same list |
| LiveRates.HighestApy | src/components/dashboardcomponents/LiveRatesDisplay.tsx:150 | the highest APY bounds every entry and is attained by one; it is 0 for an empty list |
| LiveRates.LiveProtocols | src/components/dashboardcomponents/LiveRatesDisplay.tsx:151 | exactly the entries without an error, each as often as in the list; their number, which the panel shows at line 327, is the number of positions holding an entry without an error |
| LiveRates.LiveProtocolsKeepOrder | src/components/dashboardcomponents/LiveRatesDisplay.tsx:151 | the live entries keep the list's order: those of a joined list are those of each part in turn |
| LiveRates.AllLiveIff | src/components/dashboardcomponents/LiveRatesDisplay.tsx:151 | the live count equals the list's length exactly when no entry has an error |
| LiveRates.GetProtocolConfig | src/components/dashboardcomponents/LiveRatesDisplay.tsx:133-139 | a known protocol gets its look. Any other gets a neutral look named after the raw protocol key, and the fallback icon marks exactly those |
| LiveRates.PanelNamesMatchService | src/components/dashboardcomponents/LiveRatesDisplay.tsx:18-44 | every protocol the APY service is configured for has a look in the panel, under the service's own name |
| AppRouting.Redirect | src/App.tsx:22-31 | no navigation while not ready or connecting. Connected on '/' goes to '/dashboard', disconnected on '/dashboard' goes to '/'. Any target differs from the current path, and other paths are left alone |
| AppRouting.RedirectIdempotent | src/App.tsx:26-30 | the redirect leaves its own target alone |
| AppRouting.HandleGetStarted | src/App.tsx:33-37 | navigates, to '/dashboard', exactly when connected |
| AppRouting.Render | src/App.tsx:43-91 | the loading screen shows exactly while not ready or connecting. The dashboard shows exactly on '/dashboard' with a connected wallet; disconnected there, the landing page shows. Once settled, '/' and '/vault' show the landing page, '/docs' the documentation page, and exactly every other path matches no route |
| AppRouting.SettledScreenFollowsWallet | src/App.tsx:23-73 | once the redirect has run from '/' or '/dashboard', a connected wallet sees the dashboard and a disconnected one the landing page |
| AppRouting.GetStartedShowsDashboard | src/App.tsx:33-73 | "get started" with a settled, connected wallet shows the dashboard |
| Base.FirstMaxIndex | src/utils/aggregatorRouter.ts:38-42 | a `reduce` with a strict `>` ends on the first element of maximal key |
| Base.Filter | src/utils/aggregatorRouter.ts:30 | the kept elements satisfy the predicate, never outnumber the list, and a list whose every element satisfies it is kept whole |
| Base.FilterAppend | src/utils/aggregatorRouter.ts:30 | filtering keeps the list's order: a joined list filters to the joined filtered parts |
| Base.FilterMultiset | src/utils/aggregatorRouter.ts:30 | every satisfying element is kept exactly as often as it occurs, and no other element is kept |
| Base.FilterMembers | src/utils/aggregatorRouter.ts:30 | an element is kept exactly when it occurs in the list and satisfies the predicate |
| Base.FilterKeepsAllIff | src/utils/aggregatorRouter.ts:30 | nothing is dropped exactly when every element satisfies the predicate |
| Base.FilterCount | src/utils/aggregatorRouter.ts:30 | the number kept is the number of positions whose element satisfies the predicate |

## Left out

- Deriving the vault's program addresses is a hash-based derivation in the
  ledger library. The three seeds are kept as constants.
- The wallet adapter, the program client, RPC, token-account lookups,
  `fetch` and `localStorage` are external. Their answers are inputs to the
  transitions.
- Timers and asynchronous plumbing are not modelled. This covers the
  post-transaction sleep, polling intervals, the subscription helper, the
  request timeout, the hook that wraps the APY service, and the shell's
  100 ms settling delay (the `ready` input).
- Intermediate states between awaits are not modelled. An operation runs
  atomically, and `Step.wentBusy` records that `loading` was raised.
- The separate balance loader and the manual refresh (which only calls the
  load) are not modelled beyond `InitializeData`.
- The outer catch of the vault load is not modelled. Deriving the metadata
  address (line 41) and the `toNumber` conversions (lines 56-61) run outside
  any inner `try`. A throw there reaches the outer catch, which only logs: it
  skips `setVaultInfo` and both balance reads and leaves the previous vault in
  place. The model has no such throw; it clears the in-flight flag as the
  `finally` does.
- "Back to landing" is not modelled. It is an unconditional navigation to
  '/'.
- The router library's own path matching (case, trailing slashes,
  percent-decoding) is not modelled. Paths are compared exactly.
- Number-to-text formatting (`toFixed`, template interpolation of numbers)
  is not modelled. Such values are kept as reals, and the amount in the first
  route step is rendered by a caller-supplied function.
- `toNumber` on 64-bit ledger integers is not modelled. Its 53-bit limit and
  IEEE-754 rounding do not appear in the model.
- Failed storage writes (quota) are not modelled.
- The panel's in-place display sort is not modelled.
- The engine's exact TypeError text is not modelled. A lookup error without
  any text makes the deposit's own handler throw; `MissingToStringError`
  stands in for that error.
- JsText.ParseFloat: yields the exact decimal value of the prefix. IEEE-754
  rounding, overflow to Infinity and underflow to 0 are not modelled.
- VaultUtils.UsdcToLamports: is the exact floor of x·10^6. `Math.floor(x*1e6)`
  on doubles can differ by one for some decimals (e.g. 0.29·1e6 is
  289999.99999999994 in binary floating point).
- AggregatorRouter.GetBestByApy: APY text is taken as already read into a
  real. An APY text that reads as NaN is not modelled; it would make the
  sort comparator engine-defined.
- AggregatorRouter.SortByApyDesc: stability (equal APYs keep list order) is
  implemented but not stated.
- AggregatorRouter.Eligible: a minimum deposit that is NaN (falsy, so
  admitting every amount) is not modelled.
- ApyService.FetchEach: the four fallback requests run concurrently. Each
  record is what a lone fetch of that protocol returns (`EachRecordAt`,
  `EachAfterFetch`), whatever the order. The insertion order of new cache
  keys follows completion order, which the model fixes as configuration
  order.
- ApyService.FromResponse: `apy || fallbackAPY` also replaces an apy that is
  missing or NaN. The model reads the answer's apy as a real, so it covers
  only the replacement of 0.
- ApyService.FromBulkItem: `apy || fallback` also replaces an apy that is
  missing or NaN. The model reads every item's apy as a real, so it covers
  only the replacement of 0.
- ApyService.FetchAllApys: the bulk answer is mapped and cached item by item.
  An item whose mapping throws (a malformed entry) sends the fetch to the
  fallback after items 0..k-1 are already cached. The bulk reply is either
  well formed or failed as a whole, so this mixed outcome is not modelled.
- ApyService.FetchApy: one `now` stands for both the freshness check and the
  time stamp written after the answer arrives.
- LiveRates.FetchApyData: a reply is either a parsed snapshot or a failure.
  The panel never checks `response.ok`, so a JSON body without `data` (an
  error object, say) shows an undefined list and time and writes that record
  to the slot, where it is served for 15 minutes. Such a reply is not
  modelled. The expiry is also stamped with the clock read after the answer
  arrives; the model uses the `now` of the cache read for both.
- LiveRates.GetProtocolConfig: keys inherited from `Object.prototype` (such
  as "toString") would find a function and are not modelled.
