# A verified model of the WealthAgent backend

This project models the parts of the WealthAgent backend whose correctness cannot be read off one
function, and proves what they promise for all inputs, all runs and all reachable states.

* **Capital gains** (`Fifo*`, `GainsReport`, `ReportLaws`, `ReportColumns`, `ReportRenaming`, `HoldingTotals`,
  `DemoClone`):
  the FIFO matcher over mutable lot queues, cost-basis overrides, open positions, the summary, the tax
  year, and the demo clone, whose reports must be the template's.
* **OAuth grant store** (`OAuth*`): authorization codes and rotating refresh tokens as a transition system
  whose steps are the database calls, over every interleaving, reuse detection included; then requests served
  one at a time; then the token endpoint over its two tables, proved to serve one call of that model.
* **Privacy sealing** (`Sealing`, `SealSweep`, `SweptRows`, `SweepColumns`, `SealedGains`): seal and reveal
  primitives, the sweep that seals old rows and may stop anywhere, and the report over sealed rows.
* **Transaction queries** (`SqlLike`, `TransactionSearch`, `SearchColumns`, `SearchAgreement`): the SQL search and the
  decrypt-then-filter search, and exactly when they agree.
* **Tags and bulk edits** (`TagStorage`, `TagQuery`, `BulkEdits`), the **portfolio timeline** (`Timeline`,
  `DateText`, `HistoryOrder`, `PortfolioHistory`, `PortfolioAggregation`, `PortfolioColumns`), the **limiters** (`RateLimits`,
  `RateIntervals`, `UnlockLimits`, and `UnlockRaces` for unlock attempts that overlap) and **redirect URIs**
  (`RedirectUri`).

`Seqs`, `Calendar`, `Rounding` and `Text` hold the vocabulary the rest is written in. The whole project is
checked by `dafny verify dfyconfig.toml`.

## How the code is represented

* Loops and objects that the code updates in place are methods and classes; each is proved against a
  specification function or predicate, and the laws are lemmas about that specification. `FifoBooks` and the
  modules named `...Columns` and `OAuthTraces` say the same in the columns of the rows, and in the requests made,
  alone.
* An SQL statement is one atomic step on tables kept as maps, sequences or arrays. An `UPDATE` or `SELECT`
  keeps its conditions; NULL and three-valued OR are spelled out. Rows that tie in the
  report query's ORDER BY come in any order.
* Shares are exact reals, cents unbounded integers, and `.round()` rounds half away from zero. "On a grid"
  means that all quantities are multiples of a step larger than EPSILON, so that the dust tests are tests
  against zero. Dates are valid civil dates; a date that does not parse is `None`.
* A sealed blob is a constructor holding its owner's key and the text; a token hash is the raw token it
  verifies, and a PKCE verifier is the challenge it hashes to. Generated ids and tokens are parameters that
  must be new. The clock is a parameter, and runs of the limiters are in the order of its readings
  (`InOrder`, `Sequential`, `Ascending`). Of concurrent callers this is an assumption: they read the clock
  before they wait for the lock (`backend/src/ratelimit.rs:41-42`).
* Texts are sequences of characters; in `RedirectUri` one character is one byte.

## Where code and comments differ

* `backend/src/ratelimit.rs:10-12` calls the limiter maps size-capped, but `prune` only removes expired
  entries. For the rate limiter `TableIsOverCapExactlyWhen` says when the cap is passed and
  `TableGrowsToAnySize` that it can be; for the failure limiter `FailuresAreOverCapExactlyWhen`, right after a
  failure is recorded, and `FailuresGrowToAnySize`.
* `backend/src/ratelimit.rs:27` promises at most `max` hits per window. That holds of the limiter's own
  windows (`NoWindowOverfills`). An interval as long as the window can hold up to 2 `max` - 1, and no more;
  `MaxHoldsInEveryIntervalExactlyWhen` says for which limits `max` is the bound there too.
* `backend/src/privacy/handlers.rs:37-39` says the sweep seals every row left unsealed and recovers from one
  that was interrupted. `SweepRecoversExactlyWhen` says exactly when. A listed row that got a sealed column in
  between loses it (`SyncBetweenSweepsLosesMerchant`), and a sync that seals an account's name takes the account
  off the list (`backend/src/db.rs:1284`), so that its custom name stays in plaintext for good
  (`SyncBetweenSweepsLeavesCustomName`).
* The comment at `backend/src/privacy/handlers.rs:158-159` throttles guessing after repeated wrong passphrases.
  The check and the record are separate steps: k attempts at once can get max + k - 1 through a window
  (`OverlapBoundIsExact`).
* The comment at `backend/src/oauth.rs:611-612` has reuse of a token kill the whole grant. A refresh or an
  exchange already past its lookup brings it back to life, and the revocation's own error is discarded:
  `ReuseEndsTheGrantExactlyWhen`.
* Tags set one row at a time (`backend/src/handlers/transactions.rs:66-70`), and bulk targets with commas in
  them, are stored untrimmed, so the tag filter can miss what the parser finds.
  `FilterAgreesWithParserExactlyWhen` and `FilterAgreesAfterBulkEditExactlyWhen` say when.
* The comment at `backend/src/oauth.rs:622` has a refresh revoke the token it replaces. It does not when the
  rotation fails, whose error is discarded, nor does it keep two overlapping requests from both succeeding:
  `FailedCallsLeaveTwoLiveTokens`, `OverlappingRefreshesLeaveTwoLiveTokensExactlyWhen`.

## Model

| member | source | states |
|---|---|---|
| FifoMatching.SellFromQueue | backend/src/capital_gains.rs:82-117 | The loop over a mutable queue yields exactly the pieces, the remaining queue and the unmatched rest of the recursive specification `MatchSell` |
| FifoMatching.MatchFifoLots | backend/src/capital_gains.rs:44-138 | The outer loop's three collections are the state `Run` of the transaction list; every law below is about `Run` |
| FifoMatching.MatchSell | backend/src/capital_gains.rs:82-120 | What stays in the queue is no dust, and shares stay unmatched beyond EPSILON only when the queue is empty |
| FifoSymbols.RunProjects | backend/src/capital_gains.rs:51-135 | A symbol's realized lots, unknown sales and queue in the full run are those of replaying its own trades |
| FifoSymbols.SymbolsDoNotInterfere | backend/src/capital_gains.rs:44-138 | Running the matcher on one symbol's transactions alone gives that symbol the same lots, sales and queue |
| FifoSymbols.InterleavingsAgree | backend/src/handlers/gains.rs:35-37 | Two lists with the same per-symbol sublists give every symbol the same result |
| FifoGrid.MatchSellTakes | backend/src/capital_gains.rs:83-117 | On a grid of quantities, one sell takes its quantity off the front of the queue's shares, lot by lot |
| FifoGrid.OverlapsSplit | backend/src/capital_gains.rs:83-117 | Cutting an interval of the line of lots at a point cuts its row of overlaps at that many shares |
| FifoRefinement.MatcherRefinesLineOfLots | backend/src/capital_gains.rs:68-134 | On a grid, the matcher refines the declarative account: lots laid end to end, a sell of q yields the nonempty overlaps of [C, min(C+q, B)) in lot order and an unknown sale of max(0, C+q-B), and the queue is the overlaps of [C, B) |
| Rounding.RoundIsNearest | backend/src/capital_gains.rs:88-90 | Rounding gives the nearest integer, and of two the one further from zero |
| FifoConservation.SellConserves | backend/src/capital_gains.rs:83-117 | Shares and cost going into one sell come out as pieces, remaining queue, dropped dust and unmatched shares |
| FifoConservation.SharesAndCostAreConserved | backend/src/capital_gains.rs:83-117 | Per symbol, bought shares exceed realized plus open shares by less than EPSILON a sell, and the missing cost is exactly the cost left on the lots dropped as dust |
| FifoConservation.SoldSharesAreAccountedFor | backend/src/capital_gains.rs:79-133 | Shares sold are the shares realized or reported without basis, up to EPSILON a sell |
| FifoConservation.ConservationIsExactOnGrid | backend/src/capital_gains.rs:83-117 | On a grid shares and cost are conserved exactly |
| FifoOrder.SortedTransactionsGiveSortedLots | backend/src/capital_gains.rs:51-117 | For date-sorted input every queue is date-sorted with lots of at least EPSILON, no lot opens after it closes, and a symbol's realized open dates never decrease |
| FifoOrder.LongTermPiecesComeFirst | backend/src/capital_gains.rs:83-108 | In one sell out of a sorted queue all long-term pieces precede all short-term ones |
| FifoOrder.LongTermFirstInEverySell | backend/src/capital_gains.rs:83-108 | So do the lots that each sell of a date-sorted list adds |
| FifoBooks.TradesAreRows | backend/src/capital_gains.rs:51-134 | A symbol's buys and sells are, in order, the rows with its symbol (not CASH, DEBT or N/A), a date and over EPSILON shares: the buys those that say buy as type or subtype, the sells those that do not and say sell; with the row's name, date and shares, /amount/ + /fees/ as cost and /amount/ - /fees/ as proceeds |
| FifoBooks.BooksBalance | backend/src/capital_gains.rs:51-134 | In those columns, for any input: shares bought exceed realized plus open, and shares sold exceed realized plus unknown, by at most EPSILON a sell, and realized plus open cost never exceeds /amount/ + /fees/ over the buy rows |
| FifoBooks.CostIsWhatWasPaid | backend/src/capital_gains.rs:64-66 | On a grid /amount/ + /fees/ summed over a symbol's buy rows is its realized cost plus its open cost, to the cent |
| FifoBooks.ProceedsAreWhatWasReceived | backend/src/capital_gains.rs:77-133 | On a grid a symbol's realized and unknown proceeds are within half a cent a part of /amount/ - /fees/ summed over its sell rows, and their shares add up to those rows' shares |
| FifoBooks.LotsHaveRows | backend/src/capital_gains.rs:82-133 | Every realized lot pairs a buy row with a later sell row of its symbol: their dates, the buy's name, no more than their shares, gain as proceeds less cost, long-term from 365 days between the dates; every unknown sale is a sell row's and carries its id |
| FifoCostBounds.OpenLotCostBound | backend/src/capital_gains.rs:87-112 | After k partial matches a lot's cost is within k/2 cents of its exact pro-rata cost and between 0 and the original cost |
| FifoCostBounds.OpenLotsKeepTheirCost | backend/src/capital_gains.rs:87-116 | Every open lot is one of the buys in order; only the oldest can be partly sold, and the bound holds with k the number of realized lots cut from it |
| FifoCostBounds.SellProceedsBound | backend/src/capital_gains.rs:89-132 | The proceeds of the n parts of a sell, the unknown one included, sum to within n/2 cents of net proceeds times the accounted share of the quantity |
| GainsReport.ApplyCostBasisOverrides | backend/src/capital_gains.rs:144-170 | Overridden sales become realized lots behind the FIFO ones, in order; the list of unknown sales keeps exactly the others |
| GainsReport.GatherLots | backend/src/capital_gains.rs:182-192 | The inner loop yields the first name, earliest open date, total shares and total cost of a symbol's open lots, or nothing |
| GainsReport.BuildUnrealizedPositions | backend/src/capital_gains.rs:174-228 | One position for each symbol with open lots, priced against its holdings, sorted by gain with unpriced ones last; ties are free |
| GainsReport.SumOpenGains | backend/src/capital_gains.rs:249-250 | Gains and losses over positions, None when no position has one |
| GainsReport.Summarize | backend/src/capital_gains.rs:230-261 | The five sums are those over exactly the lots of the year, whatever else is in the list |
| GainsReport.ComputeReport | backend/src/capital_gains.rs:266-302 | The composition is a report in the sense of `IsReport` for the transactions, holdings, overrides, year and day |
| ReportLaws.ReportIsDetermined | backend/src/capital_gains.rs:266-302 | Two runs on the same input differ at most in the order of positions with equal gains |
| ReportLaws.YearOfDate | backend/src/capital_gains.rs:277-285 | A date counts in a year's report exactly if it is of that year, except that an unrepresentable year stands for 1970-01-01 |
| ReportLaws.EachLotInOneYear | backend/src/capital_gains.rs:282-289 | Each realized lot is in the report of its closing year and in no other representable year's |
| ReportLaws.EachUnknownSaleInOneYear | backend/src/capital_gains.rs:282-293 | The same for sales without basis |
| ReportLaws.LaterTradesKeepEarlierYears | backend/src/capital_gains.rs:266-302 | Transactions dated after a year leave that year's realized lots, unknown sales and realized figures unchanged, for any overrides |
| ReportLaws.OverridesKeepTotals | backend/src/capital_gains.rs:144-170 | Total proceeds and total shares over realized plus unknown do not depend on the overrides |
| ReportLaws.SummaryAgreesWithLots | backend/src/capital_gains.rs:230-300 | Gain plus loss equals short-term plus long-term net, which equals proceeds minus cost over exactly the lots the report lists |
| ReportColumns.SummaryBySignAndTerm | backend/src/capital_gains.rs:230-261 | The long-term net is proceeds minus cost over exactly the listed lots held long-term, the short-term net over the others; gain and loss are those over the lots that made and lost money; open gain and loss are value minus cost over the positions priced above and below cost, None without one |
| ReportColumns.ReportListsRows | backend/src/capital_gains.rs:266-302 | Every listed lot pairs two rows, or is a sell row with the basis and term its override gives; every listed unknown sale is a sell row without an override; and each unknown sale of the year is listed one way or the other |
| ReportColumns.PositionsArePriced | backend/src/capital_gains.rs:174-228 | A position sums its symbol's open lots, names the first and dates the earliest; it has a value exactly if at least EPSILON shares are held, the whole value from that many shares on and else its share to half a cent; it is long-term from 365 days on, has unknown basis exactly if more is held, and losses come first |
| ReportLaws.PositionsCarryQueue | backend/src/capital_gains.rs:182-192 | A symbol's position carries exactly the shares and cost of its open queue |
| ReportLaws.ReportConserves | backend/src/capital_gains.rs:182-192 | On a grid, bought shares and cost are those realized over all years plus the position shown |
| ReportRenaming.MatchSellIgnoresId | backend/src/capital_gains.rs:82-117 | Matching does not look at transaction ids |
| ReportRenaming.ReportCommutesWithRenaming | backend/src/capital_gains.rs:266-302 | `compute_report` commutes with any injective renaming of transaction ids, overrides of unmapped ids being dropped |
| HoldingTotals.TotalsAreGroupSums | backend/src/capital_gains.rs:27-39 | The holdings map holds, for each symbol held other than CASH, DEBT, N/A and the empty one, the sums over its rows, and nothing else |
| DemoClone.Database.CloneTemplateInto | backend/src/db.rs:1474-1587 | The cloning transaction succeeds exactly if there is a user with the template's Google id; if the generated ids are new and the new user had no data, the new user's reports are then exactly the template's with ids renamed, and everybody else's reports are as before |
| DemoClone.QueryIsDateSorted | backend/src/db.rs:1025-1039 | Every answer the report's query can give hands the matcher date-sorted transactions, those of one day by ascending amount |
| DemoClone.CloneShowsTemplateData | backend/src/db.rs:1507-1571 | After a clone the answers to the new user's query are exactly those to the template's with ids renamed, whatever the order of ties, and the holdings are the template's |
| DemoClone.CloneShowsTemplateOverrides | backend/src/db.rs:1573-1583 | The new user has exactly the template's overrides of its own transactions, under their new ids |
| DemoClone.CloneLeavesOthersAlone | backend/src/db.rs:1474-1587 | Nobody else's query answers, holdings or overrides change |
| DemoClone.CloneReportsLikeTemplate | backend/src/db.rs:1474-1587 | A report is one of the cloned user if and only if it is one of the template with its transaction ids renamed, whatever order the two queries give to ties |
| OAuthInterleavings.ApplyIsGood | backend/src/oauth.rs:540-628 | Every database call keeps the invariant of the grant store and only moves rows forward |
| OAuthInterleavings.ExecIsGood | backend/src/oauth.rs:540-628 | So does every interleaving of calls |
| OAuthInterleavings.CodesAreSingleUse | backend/src/db.rs:273-281 | Over every interleaving, with calls that may fail with or without effect, a code is exchanged at most once and only after it was consumed (section 4.1.2 of RFC 6749) |
| OAuthInterleavings.RefreshTokensTraceToCodes | backend/src/oauth.rs:540-681 | Every refresh row traces to exactly one consumed code with the same user, client, scope and resource (section 6 of RFC 6749) |
| OAuthInterleavings.RevocationIsFinal | backend/src/db.rs:324-346 | Once revoked, a refresh row never changes again |
| OAuthInterleavings.RotationIsAcyclic | backend/src/db.rs:324-333 | `rotated_to` links never form a cycle |
| OAuthInterleavings.LookupIsExact | backend/src/oauth.rs:553-563 | Looking a presented token up by its 8-character key and verifying it finds exactly the row that holds it, and at most one |
| OAuthTraces.ExchangedCodesWerePresented | backend/src/oauth.rs:540-584 | Over every interleaving, each exchanged code was stored by a user's consent, and within sixty seconds a request presented it with the consent's client, redirect URI and challenge (section 4.6 of RFC 7636) |
| OAuthTraces.TokensStemFromConsent | backend/src/oauth.rs:540-681 | Behind every refresh token there is a consent to exactly its grant, followed by such a presentation |
| OAuthSerial.ServeIsAnInterleaving | backend/src/oauth.rs:540-628 | A request served alone is one of the interleavings, so what holds of those holds of it |
| OAuthSerial.ExchangeResult | backend/src/oauth.rs:540-584 | An accepted exchange consumes the code and stores one token for its grant; a rejected one changes nothing |
| OAuthSerial.RefreshRotates | backend/src/oauth.rs:622-628 | Refreshing a live token stores its successor for the same grant and revokes it in the successor's favour |
| OAuthSerial.RefreshRevokes | backend/src/oauth.rs:611-617 | Presenting a revoked token revokes every token of its user and client |
| OAuthSerial.OneLiveTokenPerExchange | backend/src/oauth.rs:586-628 | Requests served one at a time leave each code exchange at most one unrevoked refresh token |
| OAuthSerial.DeadGrantStaysDeadThrough | backend/src/oauth.rs:586-628 | A grant without unrevoked tokens stays so until a code is exchanged for it |
| OAuthSerial.ReuseEndsTheGrant | backend/src/oauth.rs:605-617 | For requests served one at a time: presenting a revoked token, with a matching client id or none, leaves the grant without an unrevoked token until a new code exchange (section 4.14.2 of RFC 9700) |
| OAuthReuse.DeadGrantStaysDeadExactlyWhen | backend/src/oauth.rs:586-628 | Over every interleaving, failing calls included: a grant without unrevoked tokens stays so until one of its codes is found again if and only if no request in flight is past its lookup and about to store a token for it |
| OAuthReuse.ReuseEndsTheGrantExactlyWhen | backend/src/oauth.rs:605-617 | Over every interleaving: answering a presented revoked token leaves its grant without an unrevoked token, unless that call fails without effect, and for good if and only if no other request is then past its lookup and about to store one for it |
| OAuthRaces.OverlappingRefreshesLeaveTwoLiveTokensExactlyWhen | backend/src/oauth.rs:586-628 | Over every interleaving of two refreshes that present the same live token, all calls succeeding, the exchange ends with two live tokens, the two new ones, if and only if both lookups precede the first rotation; otherwise with none |
| OAuthRaces.FailedCallsLeaveTwoLiveTokens | backend/src/oauth.rs:623-626 | A refresh served alone ends with the old token live, the new one, or both, as its insert and its rotation took effect: both when the new token was stored and the rotation, whose error is discarded, was not |
| OAuthEndpoint.TokenEndpoint.AuthorizeDecision | backend/src/oauth.rs:425-468 | Storing a code is one authorize call of the model: one new unconsumed row with the consent's grant, redirect URI and challenge, live for sixty seconds |
| OAuthEndpoint.TokenEndpoint.FindCode | backend/src/oauth.rs:553-563 | The scan of the rows under the lookup key finds the live row that holds the code, or shows there is none |
| OAuthEndpoint.TokenEndpoint.FindRefresh | backend/src/oauth.rs:593-603 | The same for refresh tokens, revoked ones included |
| OAuthEndpoint.TokenEndpoint.TokenAuthorizationCode | backend/src/oauth.rs:540-584 | The handler serves exactly one exchange of the model. On the old tables and the form alone: it answers with tokens exactly if an unconsumed, unexpired row holds the code and has the form's client id, redirect URI and challenge; that row alone is then consumed and a token for its grant stored; otherwise nothing changes |
| OAuthEndpoint.TokenEndpoint.TokenRefresh | backend/src/oauth.rs:586-628 | The handler serves exactly one refresh of the model. On the old table and the form alone: a row that holds the token, with the form naming its client or none, is rotated into a new token if it is live, revokes all of its user and client if it was revoked, and changes nothing if it expired; without such a row nothing changes |
| OAuthEndpoint.TokenEndpoint.RevokeGrant | backend/src/db.rs:337-346 | A disconnect revokes every token of the user and client and changes nothing else |
| RateLimits.RateLimiter.Allow | backend/src/ratelimit.rs:40-50 | The hit counts in the key's window if that lasts and opens a new one otherwise; it is allowed exactly if the count is at most max; other entries stay, or were expired and dropped from a table of at least 10,000 |
| RateLimits.PruningIsInvisible | backend/src/ratelimit.rs:21-50 | With a nondecreasing clock the pruned limiter answers every call exactly like one that never prunes |
| RateLimits.TableIsOverCapExactlyWhen | backend/src/ratelimit.rs:21-25 | After every in-order run the table holds more than 10,000 keys exactly if more than 10,000 keys have a window that still lasts |
| RateLimits.TableGrowsToAnySize | backend/src/ratelimit.rs:21-25 | So nothing caps it: for every size there is a run, one hit a key, that fills the table to it |
| RateIntervals.NoWindowOverfills | backend/src/ratelimit.rs:27-50 | No fixed window of the limiter lets more than max hits of a key through |
| RateIntervals.NoIntervalOverfills | backend/src/ratelimit.rs:40-50 | No half-open interval as long as the window holds more than 2 max - 1 accepted hits of a key (max positive, window over one tick) |
| RateIntervals.TightRunReachesBound | backend/src/ratelimit.rs:40-50 | For every positive max and window there is a run that reaches that bound |
| RateIntervals.IntervalBoundIsExact | backend/src/ratelimit.rs:40-50 | A number bounds the accepted hits of every such interval of every in-order run if and only if it is at least that bound |
| RateIntervals.MaxHoldsInEveryIntervalExactlyWhen | backend/src/ratelimit.rs:27-50 | Every such interval of every in-order run holds at most max accepted hits if and only if max is at most 1 or the window at most one tick |
| UnlockLimits.FailureLimiter.Blocked | backend/src/ratelimit.rs:66-77 | Blocked exactly if the entry's window lasts and is full; an expired entry is removed |
| UnlockLimits.FailureLimiter.RecordFailure | backend/src/ratelimit.rs:79-88 | The new table is that of one failure counted in the running window, or in a new one |
| UnlockLimits.PrivacyUnlock | backend/src/privacy/handlers.rs:158-177 | Turned away exactly if the key's window lasts at the check and is full, with nothing changed; otherwise unlocked exactly if the passphrase opens the key, which clears the key, or else one failure is counted in the running window or a new one; other keys stay unless expired |
| UnlockLimits.GuessesPerWindowAreBounded | backend/src/privacy/handlers.rs:158-177 | Attempts made one after the other get at most max wrong passphrases through per failure window since the last success; with max 0 it is one |
| UnlockLimits.GuessesPerIntervalAreBounded | backend/src/privacy/handlers.rs:158-177 | Since the last success no interval as long as the window holds more than 2 max - 1 wrong passphrases (max positive; 1 for max 0) |
| UnlockRaces.AttemptIsCheckAndRecord | backend/src/privacy/handlers.rs:158-177 | An attempt that nothing overlaps is its check and its record, so the laws of interleavings hold of it |
| UnlockRaces.OverlappingGuessesAreBounded | backend/src/privacy/handlers.rs:158-177 | However the checks and records of at most k attempts at once on a key interleave, no failure window lets more than max + k - 1 wrong passphrases through since the last success (k positive; max 0 counts as 1) |
| UnlockRaces.OverlapBoundIsExact | backend/src/privacy/handlers.rs:158-177 | A number bounds the wrong passphrases per window over every interleaving with at most k attempts at once if and only if it is at least max + k - 1 |
| UnlockLimits.FailuresAreOverCapExactlyWhen | backend/src/ratelimit.rs:79-88 | A recorded failure leaves the failure table with more than 10,000 keys exactly if more than 10,000 of its windows still last |
| UnlockLimits.FailuresGrowToAnySize | backend/src/ratelimit.rs:79-88 | Nothing caps the failure table either: one failure a key fills it to any size |
| UnlockLimits.WindowsStartAtFirstFailure | backend/src/ratelimit.rs:79-88 | A failure window starts at its first failure and holds every failure counted in it |
| UnlockLimits.BlockedExactlyWhenFull | backend/src/ratelimit.rs:66-77 | An attempt is turned away exactly when a failure window that still lasts is full |
| Sealing.SealedFieldsReadBack | backend/src/privacy/context.rs:78-123 | What the owner stores in a required, optional or symbol field is what the owner reads back |
| Sealing.SealedFieldsAreHidden | backend/src/privacy/context.rs:78-101 | For an encrypted user only the symbols CASH, DEBT, N/A and the empty one stay readable in the plain columns |
| SealSweep.PrivacyDatabase.SealUnsealedRows | backend/src/privacy/handlers.rs:40-78 | The four loops write listed rows only. On success the counts are those of the accounts, transactions of both kinds and holdings written, and in every row of the user the name or raw text is sealed, in investments also the symbol and the security name, in holdings also the symbol: cash and debt holdings apart, and the symbols CASH, DEBT, N/A and the empty one. On failure the tables are those of a partial sweep |
| SealSweep.WriteSealsFields | backend/src/db.rs:1292-1435 | Each write of a listed row strictly lowers the number of unsealed fields and unseals none |
| SealSweep.WriteKeepsTexts | backend/src/db.rs:1292-1435 | It keeps every text its owner reads, other users' rows, and rows all-plain or all-sealed |
| SealSweep.SweepKeepsTexts | backend/src/privacy/handlers.rs:40-78 | So does a sweep stopped after any row; the fields sealed are at least the rows written |
| SealSweep.NothingListedWhenAllSealed | backend/src/db.rs:1277-1395 | No field is left unsealed if and only if the four list queries are empty and no unlisted row holds plaintext: an unlisted account no custom name, an unlisted transaction no merchant and no note; with rows all plain or all sealed the empty queries are enough |
| SealSweep.InterruptedSweepIsCompletedByTheNext | backend/src/privacy/handlers.rs:37-40 | A stopped sweep and the one run after it end with every field sealed, all texts as before and other users' rows untouched |
| SweptRows.SweptTxn | backend/src/privacy/handlers.rs:52-59 | A transaction is sealed once, as it was found, if the sweep got to it, and is otherwise left alone |
| SweptRows.SweptAccount | backend/src/privacy/handlers.rs:45-51 | The same for accounts |
| SweptRows.SweepKeepsTextsExactlyWhen | backend/src/privacy/handlers.rs:40-78 | With every column plain or sealed but not both, a sweep that may stop anywhere keeps all texts if and only if the account and transaction rows it wrote had no sealed column |
| SweptRows.CompleteSweepKeepsTextsExactlyWhen | backend/src/privacy/handlers.rs:37-40 | With every column plain or sealed but not both, a sweep that leaves nothing listed keeps all texts if and only if no listed account or transaction row has a sealed column |
| SweptRows.CompleteSweepSealsAllExactlyWhen | backend/src/privacy/handlers.rs:37-40 | A sweep that leaves nothing listed leaves no field unsealed if and only if no unlisted row held plaintext before it |
| SweptRows.SweepRecoversExactlyWhen | backend/src/privacy/handlers.rs:37-40 | With every column plain or sealed but not both, such a sweep seals everything and keeps every text if and only if no listed account or transaction row has a sealed column and no unlisted one holds plaintext |
| SweepColumns.CompleteSweepInColumns | backend/src/privacy/handlers.rs:40-78 | A sweep that leaves nothing listed has sealed, in the user's rows and no others, exactly the columns that had no sealed form (all columns of an account or transaction if its name or raw text had none), to the owner's key and with the plain column emptied; every other column is as before |
| SweptRows.SyncBetweenSweepsLeavesCustomName | backend/src/db.rs:540-546 | A sync that seals the name of a plain account with a custom name takes it off the sweep's list: every later sweep, however far it gets, leaves the custom name in plaintext |
| SweptRows.SyncBetweenSweepsLosesMerchant | backend/src/db.rs:697-705 | A sync that seals the merchant of a stored plain transaction before the sweep gets to it makes every complete sweep lose that merchant |
| SealedGains.BuildHoldingsMap | backend/src/capital_gains.rs:27-39 | The loop over sealed holdings yields the group sums of the opened rows |
| SealedGains.InnerGetCapitalGains | backend/src/handlers/gains.rs:16-56 | Refused exactly for a locked user; otherwise the report over the opened rows for the given year or this one |
| SealedGains.EngineSeesWhatTheOwnerReads | backend/src/handlers/gains.rs:38-43 | The engine is given each row's facts and the symbol and name that the owner reads in it |
| SealedGains.SweepKeepsGainsReport | backend/src/privacy/handlers.rs:40-78 | The owner's capital-gains reports before a full or partial sweep are the reports after it |
| SealedGains.PlainRowsNeedNoKey | backend/src/handlers/gains.rs:38-43 | Rows without sealed columns give the same input with and without keys |
| SqlLike.LikeAround | backend/src/db.rs:814-828 | Around a text without metacharacters, percent signs make LIKE the substring test |
| SqlLike.SearchesAgreeExactlyOnLiterals | backend/src/db.rs:819-828 | ILIKE and the lower-cased substring test agree on every text if and only if the needle has no LIKE metacharacter (ASCII case folding) |
| TransactionSearch.RevealAll | backend/src/privacy/context.rs:130-156 | In place, every row becomes its opened row; nothing happens for a user without keys |
| TransactionSearch.Retain | backend/src/db.rs:894-901 | The kept rows are those whose raw text, merchant or note contains the needle, in order |
| TransactionSearch.InnerGetTransactions | backend/src/db.rs:836-912 | Refused, database error, SQL page or decrypted-and-filtered page, exactly as `AnswerOf` says |
| SearchColumns.ListingInColumns | backend/src/db.rs:796-912 | A listing, or a plain user's search, fails exactly for a negative page; otherwise it shows the asked page of exactly the rows dated at or after since and at or before until, of the account, category and pending flag named, with the tag, and mentioning the needle, counts them all, and shows each as the user's key opens it, 200 a page by default and at most 1000 |
| SearchColumns.SearchInColumns | backend/src/db.rs:836-912 | An owner's search over sealed rows shows and counts, of the first 20,000 rows that satisfy the other filters, exactly those whose opened texts mention the needle, ASCII case aside |
| SearchColumns.ItemsWereAskedFor | backend/src/db.rs:796-833 | Every item of every answer is a row of the table that satisfies all filters but the search |
| SearchColumns.TotalsSplitAtDate | backend/src/db.rs:798-805 | The totals since a date and until it add up to the total without dates plus that of the date itself |
| SqlLike.CasesFold | backend/src/db.rs:894-901 | Lower-casing makes equal exactly the two cases of each letter (ASCII) |
| SearchAgreement.ListingsAgree | backend/src/db.rs:836-912 | Without a search the owner of sealed rows gets the answer of the plain rows, whatever the page |
| SearchAgreement.SearchesAgreeExactlyWhen | backend/src/db.rs:836-912 | For a needle without metacharacters, fetch, decrypt, filter, skip and take answers like the SQL search on the plaintext rows if and only if limit and offset are not negative and no candidate beyond the first 20,000 matches |
| SearchAgreement.SearchesAgreeWithinCap | backend/src/db.rs:836-912 | With at most 20,000 candidates, if and only if limit and offset are not negative |
| SearchAgreement.NeedlesMustBeLiteral | backend/src/db.rs:819-828 | The two paths agree on all row lists within the cap if and only if the needle has no LIKE metacharacter |
| SearchAgreement.SealingKeepsAnswers | backend/src/db.rs:836-912 | Sealing all of a user's plain rows keeps the answers, account names included |
| SearchAgreement.LockedUserSeesPlaceholders | backend/src/db.rs:848-852 | Without the key a search is refused and a listing shows the placeholder for every sealed text |
| Text.TrimCutsEnds | backend/src/handlers/transactions.rs:87-93 | Trimming a target or a stored tag cuts the Unicode white space at both ends and nothing else |
| TagStorage.StorageRoundTrips | backend/src/handlers/transactions.rs:90-102 | Parsing the printed list gives the list back if and only if its tags are trimmed, nonempty and comma-free |
| TagStorage.StorageSettles | backend/src/handlers/transactions.rs:90-102 | Printing what was parsed from any stored text parses to the same list again |
| TagStorage.AddIsInsertion | backend/src/handlers/transactions.rs:95-96 | Adding is union with the tags the target parses to; set insertion for a comma-free target |
| TagStorage.RemoveIsDeletion | backend/src/handlers/transactions.rs:97 | Removing is set deletion and keeps the order of the others |
| TagStorage.RemoveUndoesAdd | backend/src/handlers/transactions.rs:86-102 | Removing a tag that adding put in gives the old list back |
| TagQuery.DelimitedSearchIsRun | backend/src/db.rs:814-818 | The delimited list contains the delimited text exactly if the text's comma-separated pieces are a run of the list's pieces |
| TagQuery.TagFilterIsMembership | backend/src/db.rs:814-818 | On the printed form of a list of trimmed, nonempty, comma-free tags the filter is membership, for nonempty comma-free tags without LIKE metacharacters |
| TagQuery.FilterAgreesWithParserExactlyWhen | backend/src/db.rs:814-818 | On any stored text, filter and parser agree on all such tags if and only if each tag stored with white space around it is also stored without |
| TagQuery.TagFilterIsExactOnlyForLiterals | backend/src/db.rs:814-818 | The filter is exact on every stored text if and only if the comma-free tag has no LIKE metacharacter |
| BulkEdits.TransactionTable.EditOne | backend/src/handlers/transactions.rs:86-109 | One edit changes the user's own row as `Edited` says, nothing else, and reports whether it did |
| BulkEdits.TransactionTable.BulkUpdate | backend/src/handlers/transactions.rs:79-113 | The loop's table is that of the edits in order; the count is how many ids name a row of the user, with repetition, and zero for a blank tag |
| BulkEdits.OthersStay | backend/src/db.rs:758-767 | Rows of others and rows not named stay; no row comes or goes; a blank tag changes nothing |
| BulkEdits.BulkTagEdit | backend/src/handlers/transactions.rs:86-102 | However often a row is named, its tag set becomes the old one with the target added or taken away, and nothing else of it changes |
| BulkEdits.FilterAfterBulkEdit | backend/src/handlers/transactions.rs:86-102 | For any target: after adding, the filter finds a row by its old tags, by the target's bare pieces, and by all the target's tags if the row was named again; after removing, by the other tags |
| BulkEdits.FilterAgreesAfterBulkEditExactlyWhen | backend/src/handlers/transactions.rs:86-102 | Filter and parser agree on an edited row if and only if the edit removed, or the row was named more than once, or each nonblank literal piece of the target, trimmed, is an old tag or also a bare piece of the target |
| BulkEdits.SpacedTargetIsMissed | backend/src/handlers/transactions.rs:87-100 | Adding "a, b" to a row without tags stores it as given: the parser finds "b" in it, the filter does not |
| BulkEdits.BulkNoteReadsBack | backend/src/handlers/transactions.rs:103-109 | A note set or cleared in bulk is what its owner then reads, and nothing of it stays in plaintext for an encrypted user |
| Timeline.DailyDates | backend/src/handlers/accounts.rs:103-106 | The loop ends with strictly increasing dates that are every day from start to end |
| Timeline.MonthlyDates | backend/src/handlers/accounts.rs:107-120 | The loop ends with strictly increasing dates that are the month firsts in range plus the end date |
| Timeline.TimelineIsUnique | backend/src/handlers/accounts.rs:103-121 | There is only one such list of dates |
| Timeline.TimelineExists | backend/src/handlers/accounts.rs:103-121 | There always is one |
| Timeline.PartitionPoint | backend/src/handlers/accounts.rs:93 | Binary search splits the snapshots into those at or before the date and those after it |
| Timeline.ValueAt | backend/src/handlers/accounts.rs:91-99 | The balance of the latest snapshot at or before the date, or zero |
| Timeline.BalanceAtIsTheBalance | backend/src/handlers/accounts.rs:91-99 | A balance is the latest snapshot's at or before the date, or zero without one, if and only if it is the one found from the end of the list |
| Timeline.LaterSnapshotsDoNotMatter | backend/src/db.rs:595-609 | Leaving out snapshots after the end of the range changes no balance within it |
| DateText.FourDigitYearsSort | backend/src/handlers/accounts.rs:126 | Within the years 0 to 9999 printed dates sort like the dates |
| DateText.DateReadsBack | backend/src/handlers/accounts.rs:126 | A printed date reads back as its year, two-digit month and two-digit day with dashes between them, the year in four digits or, outside 0 to 9999, behind its sign |
| DateText.FormatIsInjective | backend/src/handlers/accounts.rs:126 | No two dates print alike, whatever their years |
| PortfolioHistory.AddAccount | backend/src/handlers/accounts.rs:123-129 | One account's points are its balances on the dates, and each is added to the history entry of its date and to no other |
| PortfolioHistory.SortByDate | backend/src/handlers/accounts.rs:133-136 | The sorted list holds exactly the entries of the history, in strictly ascending order of their texts |
| PortfolioAggregation.AggregatePortfolio | backend/src/handlers/accounts.rs:59-153 | Refused exactly for over 100 ids or a date that does not parse; otherwise histories, in-range counts and the sum over the user's accounts named are those of the one timeline |
| PortfolioColumns.ResponseInColumns | backend/src/handlers/accounts.rs:59-153 | The days shown are every day of the range, or the firsts of its months and the end, by day number; the histories are of exactly the named accounts of the user, each point the balance of the last snapshot on or before its day or zero, each count the snapshots in the range; and the combined history has exactly these days, each with the sum of the histories shown, an account counting as often as it is named |
| HistoryOrder.TimelineSortsExactlyWhen | backend/src/handlers/accounts.rs:126-136 | For any years: a timeline's printed dates are in text order if and only if its first and last year are within 0 to 9999, or both over 9999 and equally wide, or from -1 to 9999, or negative and equal, or negative and adjacent across a change of width |
| PortfolioAggregation.CombinedIsChronologicalExactlyWhen | backend/src/handlers/accounts.rs:133-136 | The combined history is one point a date in date order, each the sum over the accounts, if and only if the first and last year sort in that sense |
| PortfolioAggregation.NothingToShow | backend/src/handlers/accounts.rs:133-136 | It is empty exactly without an account of the user or without a date |
| RedirectUri.PctEncode | backend/src/oauth.rs:72-81 | The loop's output is the percent-encoding of the bytes |
| RedirectUri.DecodingUndoesEncoding | backend/src/oauth.rs:72-81 | Percent-decoding (section 2.1 of RFC 3986) gives any bytes back |
| RedirectUri.EncodingIsBytewise | backend/src/oauth.rs:72-81 | Encoding goes byte by byte; letters, digits and the marks -._~ are kept, every other byte becomes a percent sign and two upper-case hexadecimal digits |
| RedirectUri.EncodedIsSafe | backend/src/oauth.rs:72-81 | Encoded text holds only unreserved characters and percent signs |
| RedirectUri.RedirectWith | backend/src/oauth.rs:84-95 | The loop's URL is the base with the printed parameters joined behind the right separator |
| RedirectUri.ClientReadsParamsExactlyWhen | backend/src/oauth.rs:84-95 | Splitting and decoding the URL's query gives the base query's parameters followed by exactly the given ones, for any value bytes, if and only if the base has no fragment sign or nothing was added |

## Left out

- FifoMatching.MatchFifoLots: floating-point error of `f64` is not modelled (exact reals), nor is i64 overflow; `saturating_sub` is plain subtraction, as it differs only at the ends of the i64 range.
- GainsReport.ComputeReport: lots printed with `open_date` "N/A" have no date in the model, and dates are not printed and parsed again between the steps.
- GainsReport.BuildUnrealizedPositions: iteration order of the hash map is free, so positions with equal gains may come in any order.
- RateLimits.RateLimiter.Allow: the `u32` count is unbounded, so the overflow after 2^32 hits in one window is not modelled; the mutex makes the table updates atomic, while the order of clock readings is assumed.
- UnlockLimits.PrivacyUnlock: serves one attempt at a time (`UnlockRaces` drops that); key derivation is a flag that says whether the passphrase opens the key; a missing key row and the key cache are not modelled.
- OAuthSerial.OneLiveTokenPerExchange: holds for requests served one at a time with database calls that succeed; issue and rotate are separate statements, and `OAuthRaces` says exactly when overlapping requests or a failed call break it.
- OAuthSerial.ReuseEndsTheGrant: holds for requests served one at a time; `OAuthReuse.ReuseEndsTheGrantExactlyWhen` says exactly when other requests in flight break it.
- OAuthEndpoint.TokenEndpoint.TokenRefresh: access tokens, `last_used_at`, and failures of minting are not modelled; `server_error` answers are covered only as failing calls in the interleavings.
- DemoClone.Database.CloneTemplateInto: models the columns that the report reads; snapshots, bank transactions, item tokens and timestamps are copied by the code but not in the model, and sealed columns of the template are taken as absent.
- SealSweep.PrivacyDatabase.SealUnsealedRows: the joins from rows over accounts and items to a user are collapsed into an `owner` field; concurrent edits during a sweep are excluded, because the two whole-row updates overwrite what they find.
- TransactionSearch.InnerGetTransactions: rows come in one order that both paths see, newest first, since ties in the date are otherwise free; case folding is ASCII; date comparison is by character code; a LIKE pattern that ends in a lone backslash matches nothing instead of raising an error.
- BulkEdits.TransactionTable.BulkUpdate: the limit of 500 ids is checked by the caller and not modelled; sealing does not fail.
- PortfolioAggregation.AggregatePortfolio: `holdings_breakdown` is not modelled; database errors are not; dates beyond the range of `chrono`, where the date loops panic, are ordinary dates.
- RedirectUri.ClientReadsParamsExactlyWhen: keys are unreserved characters, as all keys in the code are; a plus sign is read as itself.
- The cipher, key derivation, hashing and JWT internals, and HTTP routing, HTML pages, the frontend, the CLI and the MCP dispatch table.
- Plaid, Stripe and Google calls, the nightly sync and snapshot writing, which depend on remote services.
- `update_account` and the single-row transaction edit, account deletion and cascades, saved searches, entitlements, scopes and sessions: they would only add easy members.
