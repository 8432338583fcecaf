# Finagent: a verified model

This project models the stateful core of the finance agent and proves what it keeps: the per-user agent
cache under concurrency, the statement import pipeline, the fixed-deposit lifecycle, the tool-calling
conversation loop, and the brokerage cache, together with the text and number routines they rest on.
`dafny verify dfyconfig.toml` checks everything.

How to read it: code that changes state is a class or a method with loops; each is proved equal to a function
of the old state, and the theorems are about that function, over every input and every run.  What is stored and
replied is also stated in terms of arguments and answers themselves, without that function (`FdStored`,
`ImportAnswers`, `AgentAnswers`, `PortfolioAnswers`, `SbiReadBack`).  Tables are maps, one SQL statement is one
atomic step, and every statement, API call and model reply may fail or answer anything (`Faults`, `World`,
`Answer` parameters).

| file | what it models |
|---|---|
| `Pool.dfy` | the agent cache: goroutines as program counters over the map, the read-write lock and singleflight |
| `Transactions.dfy`, `Enrichment.dfy`, `Balance.dfy`, `IdempotencyKey.dfy` | the tables an import writes, and the key of a row |
| `Importer.dfy`, `ImportTheorems.dfy`, `ImportAnswers.dfy`, `EnrichmentHistory.dfy`, `StatementBalance.dfy`, `Statement.dfy` | import and background enrichment, what they leave of the enricher's answers, what any runs and histories of them leave behind, and what the account shows |
| `ImportRace.dfy`, `ImportAlone.dfy` | imports that overlap statement by statement, and one that none overlaps |
| `FixedDeposit.dfy`, `FdStored.dfy`, `FdLifecycle.dfy`, `FdInterleaving.dfy`, `Calendar.dfy` | deposits, what each call stores, renewals, overlapping calls, and Go's month arithmetic |
| `Agent.dfy`, `AgentAnswers.dfy`, `Conversation.dfy` | one inbound message: history, rounds, tools, reply |
| `Portfolio.dfy`, `PortfolioAnswers.dfy`, `PortfolioTheorems.dfy`, `Ordering.dfy` | the lazily synchronised brokerage holdings |
| `Binary64.dfy`, `Money.dfy`, `MoneyTheorems.dfy` | float rounding, rupees and paise, and which amounts survive |
| `SbiParser.dfy`, `SbiReadBack.dfy`, `Keywords.dfy`, `Slug.dfy`, `LabelRace.dfy`, `Grouping.dfy`, `Table.dfy` | the row scanner, keyword tags, slugs and labels, comma grouping, result tables |
| `TextRuns.dfy`, `Characters.dfy`, `Decimal.dfy`, `Common.dfy` | shared text and number facts |

## What turned out false, and when it holds

* A term of a months followed by one of b is not a term of a + b: `Calendar.AdditiveIff` says exactly when it is,
  `MonthEndDrifts` shows 31 January drifting, `SpillsOnce` that it happens at most once.
* A stored tenure is not always the one the maturity was computed with: `FdLifecycle.TenureStoredIff` (16 bits);
  32768 months become -32768 in `LongTenure`.
* One deposit can be renewed twice and a renewed one marked matured: `RenewedTwice`; status guards nothing: `FdStored.RenewSucceedsIff`.
* A positive principal or rate may be stored as zero: `PrincipalPositiveIff`, `RenewedPrincipalPositiveIff`,
  `RatePositiveIff`; 0.004 and 0.001 rupees are in `TinyPrincipal` and `TinyPayout`.
* Fund holdings need not be fresh, being judged by the equity stamp: `FundsReadIsFreshIff`, `HalfSyncFallsBehindIff`, `OldFundsAreServed`.
* A brokerage account whose membership insert fails blocks its client code until an account is added by another
  route: `BlockArisesIff`, `BlockedUntilUnblocked`, `AddedAccountUnblocks`.
* A request holds one system message only if no earlier reply was labelled as one: `Agent.Protocol`,
  `RequestSystemCount`, and a model that breaks it in `SecondSystemMessage`.
* The model does not see earlier user messages equal to the new one: `SeesWholeHistoryIff`, and a second "yes" in
  `RepeatedAnswerIsDropped`.
* A debit and a credit that agree on date, amount and description collapse into one transaction: `BothStoredIff`,
  and a refund in `OppositesCollapse`.
* A row can be reported as failed although its transaction is stored and nothing failed: `ImportRace.LostInsertIff`,
  and two imports of one row in `TwoImportsRace`.
* Creating a label can fail although it exists and nothing failed: `LabelRace.InsertClashIff`.
* An account need not show its newest balance: `StatementBalance.ShowsNewestIff`; a file listed newest first shows its
  oldest, `NewestFirst`.
* A transaction stored without its enrichment row never gets one: `RowForeverIff`, `BlankRowNeverRecovered`.
* A manual tag is overwritten by a later import: `ManualIffUserWroteLast`, `ImportOverwritesManual`.
* The rupee round trip loses amounts: the first is 3518437208883202 paise, which come back as one more
  (`MoneyTheorems.FirstMiss`); every amount below 2^45 rupees survives, and `RoundTripIff` says of every integer
  whether it does.
* Western commas are missing for debts of one lakh and more: `Grouping.INRStringsDistinct`, and -100,000 in
  `WesternDebtMissing`.

Code against documentation (the code is followed): README.md:88 gives 20 rounds, internal/agent/agent.go:14 has 8.
AGENT.md:59 says holdings refresh after 4 hours, internal/store/zerodha_store.go:27 has 24.
internal/store/account_store.go:182 says a balance update needs a more recent date, internal/sqlc/accounts.sql.go:190
accepts an equal one.  internal/agent/agent.go:170 speaks of the last user message, line 171 drops every equal one.
internal/agent/pool.go:34 says the factory is called at most once per user, which holds for successful calls only.
internal/store/transaction_store.go:97 says the enrichment row is always created, lines 75-100 are two separate statements.

## Model

| member | source | states |
|---|---|---|
| Pool.AgentPool.constructor | internal/agent/pool.go:37-42 | a new pool has no cached agent, lock holder or flight |
| Pool.AgentPool.Advance | internal/agent/pool.go:56-94 | one goroutine's stretch between synchronisation points changes the fields exactly as the transition system says |
| Pool.AgentPool.Pick | internal/agent/pool.go:56-94 | while any call is unanswered a scheduler finds a goroutine that can move |
| Pool.AgentPool.Drive | internal/agent/pool.go:56-94 | every schedule and every factory answer ends with all calls answered, the invariant intact and nothing cached dropped or replaced |
| Pool.StepInv | internal/agent/pool.go:56-94 | every step of every goroutine keeps the lock, flight, build and result invariant |
| Pool.RunInv | internal/agent/pool.go:56-94 | hence it holds in every state of every interleaving of any number of calls |
| Pool.InvSafe | internal/agent/pool.go:65-94 | the invariant gives: one factory call in flight per user, one successful build ever, one shared entry, one shared outcome per flight |
| Pool.RunSafe | internal/agent/pool.go:34-94 | these three safety properties in every state of every run |
| Pool.RunKeepsEntries | internal/agent/pool.go:84-87 | a cached entry is never replaced later in any run |
| Pool.FailuresAreRefusals | internal/agent/pool.go:79-82 | in every run a failure is logged exactly when that call, in the factory, was refused with that reason |
| Pool.BuildsAreAnswers | internal/agent/pool.go:79-82 | a build is logged exactly when that call, in the factory, was answered with that agent |
| Pool.RunErrorsAreRefusals | internal/agent/pool.go:68-94 | every error a call returns is the factory's refusal to the flight it led or joined |
| Pool.RunAgentsAreBuilt | internal/agent/pool.go:57-94 | every agent a call returns was built by a factory call for the same user |
| Pool.CachedCallIsFast | internal/agent/pool.go:57-63 | a call that begins after its user's agent is cached returns it without waiting for a flight or the factory |
| Pool.RunExclusive | internal/agent/pool.go:84-87 | while a goroutine writes the map none reads it and no other writes |
| Pool.StepLeavesOthers | internal/agent/pool.go:65-67 | a step for one user leaves cache, flight and goroutines of every other user alone |
| Pool.FailedBuildCachesNothing | internal/agent/pool.go:79-82 | a failed build caches nothing and is the flight's result |
| Pool.NoDeadlock | internal/agent/pool.go:56-94 | as long as one call is unanswered some goroutine can move |
| Pool.RunBound | internal/agent/pool.go:56-94 | a run of n calls has at most 11 n steps |
| Pool.MaximalRunAnswers | internal/agent/pool.go:56-94 | a run that cannot go on has answered every call, with an agent if the factory refused nobody |
| Pool.BuildsInParallel | internal/agent/pool.go:65-79 | some run has the factories of all users running at the same time |
| IdempotencyKey.KeyIff | internal/importer/importer.go:284-293 | two rows share a key exactly when account, date, amount and description agree |
| IdempotencyKey.KeyFields | internal/importer/importer.go:284-293 | the hashed text is account, date, amount and description in this order, with bars between |
| IdempotencyKey.YearComesFirst | internal/importer/importer.go:288 | 1 April 2025 is written 2025-04-01 |
| IdempotencyKey.DateTextInjective | internal/importer/importer.go:288 | different dates have different texts |
| Transactions.TransactionStore.Insert | internal/store/transaction_store.go:69-102 | two separate statements: an error may leave the transaction stored without its enrichment row |
| Transactions.TransactionStore.UpdateEnrichment | internal/store/transaction_store.go:230-255 | the COALESCE update of one row; no row, no effect and no error |
| Importer.StatementImporter.Run | internal/importer/importer.go:82-220 | tables, counts, status and closing balance of an import under any store failures; no change if the run record cannot be created |
| Importer.StatementImporter.ScanBalances | internal/importer/importer.go:95-104 | the closing balance is that of the last row in file order that has one |
| Importer.StatementImporter.RunRow | internal/importer/importer.go:107-207 | one row: duplicate, failed or inserted, and enriched if possible |
| Importer.StatementImporter.Tag | internal/importer/importer.go:182-206 | the enricher's answer is written, an unknown category left alone |
| Importer.StatementImporter.EnrichRows | internal/importer/importer.go:228-275 | the background pass over stored rows and its status; nothing without an enricher |
| ImportTheorems.ImportKeys | internal/importer/importer.go:107-175 | whatever fails, nothing stored is changed or lost and only keys of the statement are added; without failures all of them |
| ImportTheorems.ImportCounts | internal/importer/importer.go:93-175 | parsed = inserted + duplicate + failed, and the table grows by between inserted and inserted + failed |
| ImportTheorems.ImportAllKeys | internal/importer/importer.go:107-175 | the same for any sequence of imports of any accounts |
| ImportTheorems.CleanReimportRepairs | internal/importer/importer.go:107-175 | after any failures, a failure-free re-import in any order and overlap makes the key set exactly the union |
| ImportTheorems.ReimportInsertsNothing | internal/importer/importer.go:117-126 | from then on every row is a duplicate and no transaction changes |
| ImportTheorems.DuplicateIff | internal/importer/importer.go:109-118 | a row is taken for a duplicate exactly when a transaction with its account, date, amount and description is stored |
| ImportTheorems.BothStoredIff | internal/importer/importer.go:284-293 | two new rows are both stored exactly when date, amount or description differ; the first one's direction stays |
| ImportTheorems.OppositesCollapse | internal/importer/importer.go:284-293 | a refund that looks like its payment is never stored |
| ImportTheorems.BlankRowNeverRecovered | internal/store/transaction_store.go:97-100 | otherwise no later import or background pass ever creates it |
| ImportTheorems.EnrichCommutes | internal/importer/importer.go:228-266 | enriching a stored row commutes with importing another |
| ImportTheorems.InlineIsBackground | internal/importer/importer.go:107-266 | without store failures, importing with an enricher leaves the same tables and counts as importing without it and running the background pass |
| ImportTheorems.ImportKeepsKeyed | internal/importer/importer.go:158-169 | every transaction lies under the key of its own content |
| ImportTheorems.PrefixStays | internal/importer/importer.go:107-175 | what a prefix of a statement has stored stays while the rest is imported |
| ImportTheorems.FirstRowWins | internal/importer/importer.go:158-169 | the first row of each new key is stored whole, later ones leave no trace in it |
| ImportAnswers.KnownRowShows | internal/importer/importer.go:129-153 | a re-imported row takes the category of a known slug and a description that is not blank, is tagged auto and keeps the rest; no other row changes |
| ImportAnswers.NewRowShows | internal/importer/importer.go:158-206 | a new row starts empty and pending and takes the answer in the same way |
| ImportAnswers.EnrichedRowShows | internal/importer/importer.go:236-265 | so does a stored row in the background pass |
| ImportAnswers.LastAnswerShows | internal/importer/importer.go:107-206 | after a failure-free import every transaction of the statement shows the answer to the last row with its key |
| ImportAnswers.CleanImportKeepsAll | internal/store/transaction_store.go:75-100 | a failure-free import leaves no transaction without its enrichment row |
| ImportAnswers.CountsAreRows | internal/importer/importer.go:111-175 | the counters are the numbers of rows whose check or insert failed, whose key was stored when they were reached, and of all others |
| ImportAnswers.EnrichFailuresAreRows | internal/importer/importer.go:236-265 | the background pass counts the found rows that got no answer or could not be written |
| ImportRace.RaceOk | internal/importer/importer.go:107-207 | in every interleaving of any imports, statement by statement, nothing stored changes, ids stay unique, rows done are counted and clean ones stored |
| ImportRace.RaceKeys | internal/importer/importer.go:107-175 | nothing but the imported rows enters the table |
| ImportRace.RaceOutcome | internal/importer/importer.go:93-175 | when all have finished, every import has counted each row once, no clean row is lost, and the table grew by the rows inserted and at most the blank failures |
| ImportRace.CleanRaceCounts | internal/importer/importer.go:93-175 | without failures the imports together count exactly the new transactions as inserted |
| ImportRace.LostInsertIff | internal/importer/importer.go:158-174 | a clean row is reported as failed exactly when another import inserts its key after the check |
| ImportRace.TwoImportsRace | internal/importer/importer.go:111-174 | two imports of one row: one inserts, one reports a failure |
| ImportAlone.RowAlone | internal/importer/importer.go:107-207 | the statements of a row that nothing comes between are the one step of the row |
| ImportAlone.AloneIsImport | internal/importer/importer.go:107-207 | an import that no other overlaps is the import of the statement, with its counts |
| Enrichment.ColumnHoldsLastWrite | internal/sqlc/transactions.sql.go:452-465 | any COALESCE column holds the last value written to it in any history |
| Enrichment.EveryColumnHoldsLastWrite | internal/sqlc/transactions.sql.go:452-465 | so do description, category, notes and status under every interleaving of imports and manual edits |
| Enrichment.NothingCleared | internal/sqlc/transactions.sql.go:452-465 | nothing set is cleared, status never returns to pending, only manual edits touch notes |
| Enrichment.ManualIffUserWroteLast | internal/api/transaction.go:268-287 | a touched row reads manual exactly when a user wrote last |
| Enrichment.ImportOverwritesManual | internal/sqlc/transactions.sql.go:452-465 | an edit and then an import leave the tag at auto |
| EnrichmentHistory.StepOnRow | internal/importer/importer.go:128-206 | one imported row, background row or manual edit changes an existing enrichment row by exactly its write |
| EnrichmentHistory.NewRowIsBlank | internal/store/transaction_store.go:75-100 | a row that appears is blank but for what its own import writes at once |
| EnrichmentHistory.EditStores | internal/api/transaction.go:268-287 | a manual edit sets the category and notes it gives, tags the row manual, and changes nothing else |
| EnrichmentHistory.HistoryIsReplay | internal/importer/importer.go:107-266 | in every history of imports, background passes, edits and failures a row is its earlier state with the writes since replayed |
| EnrichmentHistory.HistoryHoldsLastWrites | internal/sqlc/transactions.sql.go:452-465 | hence in every history each column holds the last value written, nothing is cleared and status never returns to pending |
| EnrichmentHistory.RowForeverIff | internal/store/transaction_store.go:75-100 | a transaction has an enrichment row, at any later time, exactly when the second statement of its insert succeeded |
| Balance.AccountRow.UpdateBalance | internal/sqlc/accounts.sql.go:186-191 | the guarded update of balance and date |
| Balance.FinalIsLastGreatest | internal/sqlc/accounts.sql.go:186-191 | the final balance is the last update applied among those with the greatest date |
| Balance.OrderDoesNotMatter | internal/store/account_store.go:181-194 | closing balances of distinct dates give one result in any order and with any repetition |
| Balance.AsOfNeverDecreases | internal/sqlc/accounts.sql.go:186-191 | the stored date never goes back |
| Balance.CommuteIff | internal/sqlc/accounts.sql.go:186-191 | exactly when two updates may be swapped |
| StatementBalance.ScanFindsClosing | internal/importer/importer.go:95-104 | the scan finds exactly the closing balance of the last row that has one |
| StatementBalance.ImportsAreUpdates | cmd/finagent/import.go:141-145 | importing statements is applying their closing balances in order |
| StatementBalance.ShowsNewestIff | internal/importer/importer.go:95-104 | after any imports in any order the account shows the newest date of all balances exactly when some statement's last row with a balance has it |
| StatementBalance.OldestFirst | internal/importer/importer.go:95-97 | a file listed oldest first closes on its newest date |
| StatementBalance.NewestFirst | internal/importer/importer.go:95-97 | a file listed newest first closes on its oldest |
| StatementBalance.ShowsClosing | internal/importer/importer.go:95-104 | the account shows the last balance of the statement that closes latest, the later import deciding between equal dates |
| FixedDeposit.FDStore.Rollback | internal/store/fd_store.go:75 | an aborted transaction leaves the tables it found |
| FixedDeposit.FDStore.CreateAccount | internal/db/migrations/000003_accounts.up.sql:26 | an account is refused exactly when institution and external id are taken or the database fails |
| FixedDeposit.FDStore.InsertRows | internal/store/fd_store.go:79-117 | account, member and deposit in order; success means all three |
| FixedDeposit.FDStore.CreateWithAccount | internal/store/fd_store.go:56-123 | creation is all or nothing |
| FixedDeposit.FDStore.RenewFD | internal/store/fd_store.go:144-216 | renewal is all or nothing: parent marked and child created together |
| FixedDeposit.FDStore.UpdateStatus | internal/store/fd_store.go:268-287 | status and payout of the caller's own deposit, or an error and no change |
| FixedDeposit.ManageFD.Run | internal/tools/manage_fd.go:99-118 | every action of the tool as one step of the tables |
| FixedDeposit.ManageFD.Create | internal/tools/manage_fd.go:120-189 | the argument checks, defaults and conversions of a new deposit |
| FixedDeposit.ManageFD.Update | internal/tools/manage_fd.go:202-214 | marking a deposit |
| FixedDeposit.ManageFD.Renew | internal/tools/manage_fd.go:223-280 | the argument checks and the next term of a renewal |
| FdStored.CreateSucceedsIff | internal/tools/manage_fd.go:120-189 | exactly which arguments, faults and taken numbers let a deposit be created |
| FdStored.RenewSucceedsIff | internal/tools/manage_fd.go:223-280 | exactly when a renewal succeeds; status plays no part |
| FdStored.MarkSucceedsIff | internal/tools/manage_fd.go:202-214 | exactly when a deposit is marked; the amount is not checked |
| FdStored.OtherActionFails | internal/tools/manage_fd.go:106-117 | any other action is an error and changes nothing |
| FdStored.CreateStores | internal/tools/manage_fd.go:146-186 | the new row: the renewal and payout named, amounts and rate to the nearest hundredth, tenure in 16 bits, dates, texts and caller as sent; an account and membership of its own; all other rows equal |
| FdStored.ParentMustExist | internal/store/fd_store.go:62-69 | a deposit created under a parent points to it, and is refused if there is none |
| FdStored.MarkStores | internal/tools/manage_fd.go:109-112 | each mark sets its own status and the payout sent, of that deposit alone |
| FdStored.RenewStores | internal/tools/manage_fd.go:247-277 | parent marked with the payout; one active child from the old maturity, with inherited terms, the parent's principal or the payout, its own account; all other rows equal |
| FdStored.PrincipalOnlyForever | internal/tools/manage_fd.go:154-256 | in every run a deposit created with "principal_only" keeps its created principal along every chain of renewals |
| FdStored.RenewedFromPayout | internal/tools/manage_fd.go:252-256 | in every run any other renewal holds what was paid out |
| FdStored.TinyPayout | internal/tools/manage_fd.go:236-256 | a payout of 0.001 rupees leaves an active deposit without a principal |
| FdLifecycle.ExecuteKeeps | internal/tools/manage_fd.go:99-118 | every call keeps acyclic links, one account each, linked terms; only status and payout of an old row change; an error changes nothing |
| FdLifecycle.RunKeeps | internal/tools/manage_fd.go:99-118 | so does every run of calls by any users |
| FdLifecycle.NextTermLinked | internal/tools/manage_fd.go:248-277 | the next term inherits user, payout and renewal type, starts at the old maturity and ends later |
| FdLifecycle.NoCycle | internal/store/fd_store.go:192-207 | no deposit is its own ancestor |
| FdLifecycle.ChainInherits | internal/tools/manage_fd.go:252-277 | user and terms never change along a chain; principal-only chains keep the root principal |
| FdLifecycle.TermFollows | internal/tools/manage_fd.go:248-250 | a renewed term starts on its parent's maturity and lasts at least 28 days |
| FdLifecycle.TenureStoredIff | internal/tools/manage_fd.go:272 | the stored tenure is the one the date was computed with exactly when it fits 16 bits |
| FdLifecycle.LongTenure | internal/tools/manage_fd.go:272 | a renewal for 32768 months stores -32768 |
| FdLifecycle.ChainMaturity | internal/tools/manage_fd.go:248-250 | maturities along every chain are consecutive terms of the tenures asked for; from a maturity on day 28 or earlier the last is their sum later, on the same day of the month |
| FdLifecycle.RenewOnce | internal/store/fd_store.go:144-216 | an owned deposit can always be renewed under a generated number |
| FdLifecycle.RenewedTwice | internal/store/fd_store.go:160-169 | one deposit renewed into two children and then marked matured |
| FdLifecycle.PrincipalIsExactIff | internal/tools/manage_fd.go:177 | an amount of whole paise is stored as itself exactly when it survives the floats |
| FdLifecycle.PrincipalPositiveIff | internal/tools/manage_fd.go:124-177 | a checked principal is stored positive exactly when 100 times it is half a paisa or rounds up to it |
| FdLifecycle.RenewedPrincipalPositiveIff | internal/tools/manage_fd.go:252-256 | exactly when a renewal's principal is positive |
| FdLifecycle.RatePositiveIff | internal/tools/manage_fd.go:178 | exactly when an accepted rate is stored as a positive one |
| FdLifecycle.TinyPrincipal | internal/tools/manage_fd.go:124-177 | 0.004 rupees are accepted and stored as nothing |
| FdInterleaving.WriteIsWholeCall | internal/tools/manage_fd.go:243-277 | a renewal written from a stale read does and replies exactly what the whole call would do at that moment |
| FdInterleaving.StepIsCall | internal/tools/manage_fd.go:223-280 | every move of every interleaving leaves the deposits alone or is one whole call |
| FdInterleaving.CompletesIsCall | internal/tools/manage_fd.go:223-280 | a move that completes a call does to the deposits, and replies, what the call would in one piece |
| FdInterleaving.InterleavingIsRun | internal/tools/manage_fd.go:223-280 | overlapping calls are linearizable: run one after the other in the order of their replies, exactly the completed calls give the same replies and the same deposits |
| Calendar.AddMonthsSerial | internal/tools/manage_fd.go:248-250 | adding months is going to the first of the n-th following month and then counting days |
| Calendar.SpanIsWholeMonths | internal/tools/manage_fd.go:248-250 | n months last exactly n consecutive calendar months, between 28n and 31n days |
| Calendar.AdditiveIff | internal/tools/manage_fd.go:248-250 | exactly when a then b months equal a + b months |
| Calendar.MonthEndDrifts | internal/tools/manage_fd.go:248-250 | 31 January plus one month twice is 3 April, plus two months 31 March |
| Calendar.ChainOfTerms | internal/tools/manage_fd.go:248-250 | up to day 28 a chain of terms ends the summed months later on the same day |
| Calendar.SpillsOnce | internal/tools/manage_fd.go:248-250 | after a spill the day is at most 3 and never moves again |
| Calendar.SerialOrder | internal/tools/manage_fd.go:249-250 | day numbers order valid dates and tell them apart |
| Calendar.FirstOfYear | internal/tools/manage_fd.go:249-250 | the day count is the closed Gregorian formula |
| Conversation.Session.SaveMessage | internal/store/conversation_store.go:58-69 | a message is appended or nothing changes |
| Conversation.Session.RecentMessages | internal/store/conversation_store.go:72-85 | the last messages up to the limit, oldest first |
| Conversation.Reverse | internal/store/conversation_store.go:80-83 | the in-place reversal |
| Agent.ChatAgent.HandleMessage | internal/agent/agent.go:55-164 | requests, reply and session log of one inbound message under any failures; the reply is never empty |
| Agent.ChatAgent.Converse | internal/agent/agent.go:97-142 | the round loop produces exactly these requests and this end |
| Agent.ChatAgent.RunTools | internal/agent/agent.go:123-141 | one result message per call, in order, errors as text |
| Agent.BuildMessages | internal/agent/agent.go:167-181 | the opening request |
| Agent.TextOccursOnce | internal/agent/agent.go:169-179 | the new text occurs once among the user's messages, at the end |
| Agent.SeesWholeHistoryIff | internal/agent/agent.go:169-173 | the whole history is sent exactly if the user never said the same before |
| Agent.RepeatedAnswerIsDropped | internal/agent/agent.go:169-173 | a "yes" said before is not sent again |
| Agent.RequestIsExchanges | internal/agent/agent.go:99-142 | the i-th request is the opening and i whole exchanges: each reply with calls is followed at once by one answer per call, same ids, same order |
| Agent.RequestsExtend | internal/agent/agent.go:99-142 | each request strictly extends the one before, at most one per round |
| Agent.OutcomeMeaning | internal/agent/agent.go:112-150 | which reply ended the conversation, or that all rounds asked for tools, or that the last request failed |
| AgentAnswers.FirstRequest | internal/agent/agent.go:79-180 | the first request is the prompt, those of the last twenty logged messages that do not repeat the text, in order, and the text |
| AgentAnswers.RecentIsEnd | internal/store/conversation_store.go:72-85 | the window is the end of the log, nothing newer missing |
| AgentAnswers.ResultsAreAnswers | internal/agent/agent.go:123-141 | the i-th answer carries the output of the i-th call, or "error: " and its text, and the tool saw everything before it |
| AgentAnswers.RequestsConverse | internal/agent/agent.go:99-142 | each request is the one before, the model's reply to it as it came, and the answers to its calls; the rounds end at the first final reply or failure, or at eight |
| AgentAnswers.HandleReplies | internal/agent/agent.go:112-163 | the user gets the last reply's content if it ends the rounds and is not empty, else the apology, nothing if the model failed; the log gains text and reply unless their saves failed |
| AgentAnswers.HandleAnswers | internal/agent/agent.go:55-164 | all of this of one inbound message |
| AgentAnswers.HandleRefused | internal/agent/agent.go:68-83 | without session nothing happens; without history only the user's text is kept |
| AgentAnswers.UndisturbedTranscript | internal/agent/agent.go:74-155 | the log of a session without failures is its users' texts and replies in turn |
| Agent.RequestSystemCount | internal/llm/openai/openai.go:140-144 | system messages of a request are the opening's and the replies labelled so |
| Agent.Protocol | internal/agent/agent.go:94-142 | at most eight requests, each led by the prompt, extending the last and made of whole exchanges; one system message exactly when no earlier reply was labelled as one |
| Agent.RecentIsSpoken | internal/agent/agent.go:75-80 | the history sent holds at most 20 messages of user and assistant only |
| Agent.SessionIsSpoken | internal/agent/agent.go:74-155 | through any turns with any models and failures a session holds only what user and assistant said |
| Agent.SessionProtocol | internal/agent/agent.go:55-164 | hence the protocol holds of every request of every turn of every session |
| Agent.SecondSystemMessage | internal/llm/openai/openai.go:140-144 | a model whose second request holds two system messages |
| Portfolio.ZerodhaService.FindOrCreateAccount | internal/store/zerodha_store.go:66-106 | the account found, backfilled or made in two separate statements |
| Portfolio.ZerodhaService.ReplaceEquity | internal/store/zerodha_store.go:110-142 | the whole converted answer or the old rows |
| Portfolio.ZerodhaService.ReplaceFunds | internal/store/zerodha_store.go:145-177 | the same for funds |
| Portfolio.ZerodhaService.DoSync | internal/store/zerodha_store.go:412-436 | equity, then funds, then the balance; a failure keeps the steps before it |
| Portfolio.ZerodhaService.Refresh | internal/store/zerodha_store.go:394-409 | token, account, freshness by the equity stamp, then a sync |
| Portfolio.ZerodhaService.GetEquityHoldings | internal/store/zerodha_store.go:318-327 | exactly the rows after the lazy sync, ordered by symbol, or an error |
| Portfolio.ZerodhaService.GetMFHoldings | internal/store/zerodha_store.go:330-339 | exactly the rows after the lazy sync, ordered by fund, or an error |
| PortfolioTheorems.PerformStores | internal/store/zerodha_store.go:412-427 | an operation keeps a table unless it fetched and stored a whole answer, which then is the table |
| PortfolioTheorems.TablesAreWholeAnswers | internal/store/zerodha_store.go:110-177 | in every run each table is exactly the answer fetched by the last step that stored it, whole and converted, or empty if none did |
| PortfolioTheorems.ConversionIsExactIff | internal/store/zerodha_store.go:126-137 | each whole-paise price is stored as itself, in its own column, exactly when it survives the floats; the quantity exactly when it fits 32 bits |
| PortfolioTheorems.EquityReadIsFresh | internal/store/zerodha_store.go:394-409 | a successful equity read returns rows under 24 hours old; none only if the API said so in that read |
| PortfolioTheorems.EmptyEquityAlwaysSyncs | internal/store/zerodha_store.go:181-190 | an empty equity portfolio is never fresh |
| PortfolioTheorems.OnlySyncsReplace | internal/store/zerodha_store.go:394-409 | an operation that does not ask the API keeps both tables |
| PortfolioTheorems.FundsKeepUpUnlessHalfSynced | internal/store/zerodha_store.go:412-436 | every operation but a half-failed sync keeps funds as new as equity |
| PortfolioTheorems.HalfSyncFallsBehindIff | internal/store/zerodha_store.go:417-427 | exactly when that one leaves them behind |
| PortfolioTheorems.FundsReadIsFreshIff | internal/store/zerodha_store.go:330-339 | a fund read is fresh exactly when equity is stale or the stored funds are young |
| PortfolioTheorems.FundsReadIsFresh | internal/store/zerodha_store.go:330-339 | it is while funds keep up |
| PortfolioTheorems.RunFundsFresh | internal/store/zerodha_store.go:394-436 | hence in every run none of whose syncs failed half way |
| PortfolioTheorems.OldFundsAreServed | internal/store/zerodha_store.go:403-427 | how fund rows of any age come to be served |
| PortfolioTheorems.BlockArisesIff | internal/store/zerodha_store.go:86-104 | a read or sync leaves an account without a member exactly when the membership insert alone fails |
| PortfolioTheorems.BlockedUntilUnblocked | internal/store/zerodha_store.go:86-104 | in every run, every later read and sync then fails and the tables stay, until another client's token or an added account |
| PortfolioTheorems.AddedAccountUnblocks | internal/store/account_store.go:69-97 | when adding an account succeeds, and that it lifts the block |
| PortfolioTheorems.BalanceAfterSync | internal/store/zerodha_store.go:429-433 | exactly when the account shows the value of the stored rows: a summary that failed counts as zero |
| PortfolioAnswers.BalanceIsWorth | internal/sqlc/zerodha.sql.go:46-134 | the balance is the sum of quantity times last price plus the sum of units times NAV, rounded once, unless its date is later or the update fails |
| PortfolioAnswers.RowsAsFetched | internal/store/zerodha_store.go:121-174 | a row a holding, in order, every column from its own field: prices and NAVs to the nearest paisa, units to four decimals, quantity in 32 bits, gain as computed in floats |
| PortfolioAnswers.FundConversionIsExactIff | internal/store/zerodha_store.go:169-170 | each whole-paise NAV is stored as itself, in its own column, exactly when it survives the floats |
| PortfolioAnswers.NoTokenFails | internal/store/zerodha_store.go:379-391 | without a token, or with one expired or without expiry, every read and sync fails and changes nothing |
| PortfolioAnswers.TokenIsStored | internal/store/zerodha_store.go:292-296 | a token is stored as given and changed by nothing else |
| PortfolioAnswers.ExpiredUntilReplaced | internal/store/zerodha_store.go:379-391 | in every run an expired token fails every read and sync until another is stored |
| PortfolioAnswers.AccountIsKept | internal/store/zerodha_store.go:66-106 | what a read or sync makes of the account: found, backfilled, made, or left without a member |
| PortfolioAnswers.AddAccountIff | internal/store/account_store.go:69-97 | when an account is added by hand, and what that changes |
| PortfolioAnswers.SyncStores | internal/store/zerodha_store.go:412-436 | a sync succeeds exactly when both answers arrive with distinct keys and no statement fails; what arrived is stored, funds only after equity |
| PortfolioAnswers.SucceedsIff | internal/store/zerodha_store.go:305-409 | exactly when a read or sync succeeds |
| PortfolioAnswers.FreshReadKeeps | internal/store/zerodha_store.go:403-406 | a read within 24 hours of the newest equity row keeps everything, whatever the API would say |
| PortfolioAnswers.StaleReadStores | internal/store/zerodha_store.go:407-436 | any other that succeeds has stored both answers |
| Keywords.ScanWords | internal/store/memory_store.go:191-217 | the byte loop returns exactly the keywords |
| Keywords.CloseWord | internal/store/memory_store.go:202-208 | a finished word is kept if long and new |
| Keywords.MakeAutoTags | internal/tools/queriers.go:18-54 | keywords, or the first field |
| Keywords.MakeQueryTags | internal/store/memory_store.go:190-222 | keywords, or all fields |
| Keywords.KeywordIff | internal/tools/queriers.go:18-54 | a keyword is exactly a lower-cased maximal letter run longer than four |
| Keywords.KeywordsDistinct | internal/tools/queriers.go:30-36 | keywords do not repeat |
| Keywords.KeywordLetters | internal/tools/queriers.go:22-35 | keywords have more than four letters, all from a to z |
| Keywords.TagsAreKeywords | internal/tools/queriers.go:46-53 | a text with a long word is stored and asked for by its keywords |
| Keywords.QueryFallsBack | internal/store/memory_store.go:218-221 | one without is asked for by exactly its fields |
| Keywords.StoredFallsBack | internal/tools/queriers.go:46-52 | and stored under its first field alone |
| Keywords.UntaggedIff | internal/tools/queriers.go:46-53 | exactly which texts are stored without a tag |
| Keywords.LongDistinctOrder | internal/tools/queriers.go:30-36 | they keep the order of first appearance |
| Keywords.SharedWordIsRecalled | internal/sqlc/memories.sql.go:169-177 | content and query sharing a long word always pass the recall filter |
| Keywords.RecallIffSharedWord | internal/sqlc/memories.sql.go:169-177 | with long words on both sides, the filter passes exactly for a shared one |
| Keywords.SelfIsRecalled | internal/store/memory_store.go:111-115 | a query equal to the content always passes |
| Slug.SlugifyLabel | internal/store/label_store.go:104-117 | the builder loop yields the lower-cased words joined by single hyphens |
| Slug.SlugWellFormed | internal/store/label_store.go:103-117 | no leading, trailing or doubled hyphen, nothing but words and hyphens |
| Slug.SlugKeepsWords | internal/store/label_store.go:103-117 | the words of a slug are those of the lower-cased name, in order |
| Slug.SlugifyIdempotent | internal/store/label_store.go:103-117 | a slug is a fixed point |
| Slug.SlugMakersAgree | cmd/finagent/user.go:43-50 | the regular expression of user creation gives the same slug as the label loop over ASCII |
| Slug.UserSlugIsFixed | cmd/finagent/user.go:43-50 | a user's slug is a fixed point of both makers |
| Slug.LabelStore.FindOrCreate | internal/store/label_store.go:79-101 | get or create by slug, errors, and what stays |
| Slug.CallStores | internal/store/label_store.go:79-101 | when a call fails, finds or creates, and that a created label has its caller and name |
| Slug.LabelStays | internal/store/label_store.go:78-101 | in every run a label once returned stays under its slug with its id |
| Slug.SameLabelIff | internal/store/label_store.go:78-101 | in every run two calls return one label exactly when their slugs agree, across users |
| LabelRace.RaceSameLabelIff | internal/store/label_store.go:81-100 | however lookups and inserts overlap, two successful calls return one label exactly when their slugs agree |
| LabelRace.AloneIsCall | internal/store/label_store.go:79-101 | a call nothing comes between is the whole call |
| LabelRace.InsertClashIff | internal/store/label_store.go:92-99 | an insert fails for no fault exactly when another call created the label since the lookup, and a retry finds it |
| Grouping.IndianComma | internal/eval/scenarios.go:208-223 | the in-place grouping loop yields sign and Indian groups |
| Grouping.WesternComma | internal/eval/scenarios.go:227-244 | the digit loop yields sign and Western groups |
| Grouping.PaiseToINRStrings | internal/eval/scenarios.go:187-204 | which forms an amount has |
| Grouping.IndianShape | internal/eval/scenarios.go:206-223 | digits in order, groups of (1-2), 2, ..., 2, 3 |
| Grouping.WesternShape | internal/eval/scenarios.go:225-244 | digits in order, groups of (1-3), 3, ..., 3 |
| Grouping.CommasReadBack | internal/eval/scenarios.go:206-244 | deleting the commas gives the plain decimal text |
| Grouping.GroupingsAgreeIff | internal/eval/scenarios.go:181-183 | the two agree exactly below one lakh |
| Grouping.PlainIff | internal/eval/scenarios.go:213-232 | commas appear exactly from one thousand on |
| Grouping.INRStringsReadBack | internal/eval/scenarios.go:187-204 | every form reads as paise / 100, truncated |
| Grouping.INRStringsDistinct | internal/eval/scenarios.go:187-204 | forms are pairwise distinct and complete, but for Western debts of one lakh and more |
| Grouping.WholeRupees | internal/eval/scenarios.go:188 | the rupees of an amount leave less than one, of the amount's sign |
| Grouping.WesternDebtMissing | internal/eval/scenarios.go:197-202 | "-100,000" is no form of a debt of one lakh |
| Table.ColumnWidths | internal/tools/execute_sql.go:146-157 | the widths buffer holds each column's greatest length |
| Table.WriteLine | internal/tools/execute_sql.go:168-194 | one padded line, cells beyond the last column dropped |
| Table.FormatTable | internal/tools/execute_sql.go:145-201 | header, rule, rows and notice |
| Table.Collect | internal/tools/execute_sql.go:74-103 | the first fifty rows, truncated exactly when there are more, and an error exactly when a row looked at cannot be decoded or reading fails |
| Table.CellsShow | internal/tools/execute_sql.go:80-90 | a null prints as NULL, up to 80 bytes print as they are, a longer text as its first 80 and an ellipsis, each in its own row and column |
| Table.WidthsFit | internal/tools/execute_sql.go:146-157 | a column is exactly as wide as its widest text |
| Table.LineLength | internal/tools/execute_sql.go:166-195 | every line has length sum of widths + 3 (n - 1) |
| Table.LineSplit | internal/tools/execute_sql.go:184-194 | a column starts at one offset on every line, a bar after it unless it is the last |
| Table.ColumnReadsBack | internal/tools/execute_sql.go:184-194 | cutting a line at the offsets gives each cell followed only by padding |
| Table.LineInjective | internal/tools/execute_sql.go:184-194 | rows that print the same agree up to trailing spaces |
| Table.TableLayout | internal/tools/execute_sql.go:145-195 | header, rule and rows are aligned and readable column by column |
| Table.TableReadsBack | internal/tools/execute_sql.go:166-200 | the whole text cut at the line length is header, rule and every row in order, then the notice exactly when truncated |
| Money.RoundIsNearest | internal/model/money.go:36 | math.Round is the nearest integer, halves away from zero |
| Money.FromRupeesNearest | internal/model/money.go:36 | the result is the nearest paisa up to the rounding of one float product |
| Binary64.FlNear | internal/model/money.go:20-36 | rounding to nearest stays within relative error 2^-53 |
| MoneyTheorems.RoundTripIff | internal/model/money.go:20-36 | of every integer, whether FromRupees(m.Rupees()) == m in binary64 arithmetic |
| MoneyTheorems.ParsedIff | internal/importer/parser/sbi.go:182-196 | of every amount up to 2^53 paise, whether parse, times 100 and round gives it back |
| MoneyTheorems.AllSurviveIff | internal/model/money.go:20-36 | all amounts up to a bound survive exactly when the bound is below 3518437208883202 paise |
| MoneyTheorems.FirstMiss | internal/model/money.go:20-36 | the first amount that is lost, and what it becomes |
| MoneyTheorems.PositiveIff | internal/model/money.go:36 | which products are stored as positive amounts |
| MoneyTheorems.ChainExact | internal/model/money.go:20-36 | below 2^51 paise the chain is exact whichever way its operations round within 2^-53 |
| SbiParser.ParseSBIRows | internal/importer/parser/sbi.go:131-223 | the scanning loop computes header search, data rows and stop at the footer |
| SbiParser.FindCol | internal/importer/parser/axis.go:211-218 | the first cell containing the text, or -1 when none does |
| SbiParser.ParseDataAppend | internal/importer/parser/sbi.go:159-220 | after the header, parsing splits over concatenation unless the first part has a footer, which ends it |
| SbiParser.ParseAppend | internal/importer/parser/sbi.go:144-220 | the same for whole statements |
| SbiParser.OutputFollowsRows | internal/importer/parser/sbi.go:144-220 | each transaction comes from a row of its own, in row order, before any footer |
| SbiParser.RepeatedHeaderEnds | internal/importer/parser/sbi.go:163-170 | a header met again ends the statement |
| SbiParser.AmountIsExactIff | internal/importer/parser/sbi.go:182-196 | a cell showing whole paise, grouped and marked in any way, becomes exactly that amount if and only if it survives the floats |
| SbiParser.BalanceIsExactIff | internal/importer/parser/sbi.go:209-217 | when a balance is stored, and the same for its amount |
| SbiParser.CleanAmountReads | internal/importer/parser/axis.go:228-235 | a number with commas anywhere, white space around and CR or DR after it is cleaned to exactly that number, in any script |
| SbiParser.DateReadsBack | internal/importer/parser/sbi.go:167-170 | every date to year 9999 is read back from its printed cell |
| SbiReadBack.DateIff | internal/importer/parser/sbi.go:167-170 | a cell is read as a date exactly when it prints it |
| SbiReadBack.DayComesFirst | internal/importer/parser/sbi.go:167 | "01/04/2025" is 1 April |
| SbiReadBack.IsHeaderIff | internal/importer/parser/sbi.go:145-147 | the header is the first row that names date, debit and credit, in any case |
| SbiReadBack.TitlesAreFound | internal/importer/parser/sbi.go:146-155 | the bank's six titles are found where they stand |
| SbiReadBack.RowStands | internal/importer/parser/sbi.go:163-219 | a row with a date and an amount is one transaction: that date, a debit exactly when the debit cell holds the amount, the amount, the description on one line, reference and balance |
| SbiReadBack.RowStandsIff | internal/importer/parser/sbi.go:159-199 | every other row gives none |
| SbiReadBack.PrintedRowStands | internal/importer/parser/sbi.go:176-196 | the same of amounts as printed, which are exact when they survive the floats |
| SbiReadBack.StatementStands | internal/importer/parser/sbi.go:144-220 | a statement row by row: what a row adds depends on nothing before it, unless a row with an unreadable date ended the statement |

## Left out

- Postgres itself, pgx scanning, isolation anomalies, migrations, context cancellation and panics; overlapping syncs of one account.
- LLM, embeddings, vector distance, HTTP handlers, channels, authentication, signing: only arbitrary environments.
- XLS, XLSX and CSV decoding, statement metadata and passwords; the HDFC, ICICI and Axis loops repeat the SBI one.
- Code that one reading settles: payment mode detection, model routing, the SQL prefix guard, enum validity, the system prompt, Money.String, the "No rows returned." reply.
- Session lookup, memory saving and embedding recall, label grouping for lists, updates of import_runs, enricher prompt and answer decoding, logging, updated_at columns.
- Pool.HandleMessage's rewriting of the user id is not part of this model.
- RoundTripIff: the exponent range is unbounded, so there is no underflow or overflow; a product that is no int64 is kept as the integer it is.
- CreateStores: NaN, infinities and amounts beyond int64 are not modelled.
- ParseSBIRows: number parsing is an arbitrary partial function; what the conversion of NaN or an infinity gives is left open, and an amount beyond int64 is kept as the integer it is.
- AmountIsExactIff: takes from strconv.ParseFloat that it returns the nearest float of a two-decimal text.
- KeyIff: takes SHA-256 as collision-free and the account text as free of `|`, which a UUID is.
- SlugifyLabel: lower-casing maps one character to one character; `SlugMakersAgree` is about ASCII names, on which both classifications agree.
- MakeAutoTags: texts are characters, so invalid UTF-8 is not modelled.
- SlugifyIdempotent: takes from Unicode's tables that lower case is final for letters and digits and that the hyphen is neither; for ASCII this is proved.
- HistoryIsReplay: the statements of one row form one step here; imports that overlap inside a row are in `ImportRace`, without edits.
- Advance: goroutines stop only at synchronisation points; singleflight and RWMutex are given by their documented rules, and a factory that never returns or panics is not modelled.
- IndianComma: the smallest int64 is excluded, for its negation is itself in Go and the recursion would not end.
- WesternComma: the same.
- AddMonths: counts from year 0 and takes any tenure; Go's int range for years is not modelled.
- HandleMessage: the model is a function of the messages it is sent, which loses nothing because requests of one call differ; messages of one session have distinct times.
- FindOrCreateAccount: one user with at most one brokerage account, so adding a second is not an operation; other users appear only as holders of client codes.
- GetEquityHoldings: an operation happens at one instant, the same for program and database.
- Run: error texts and replies of tools are not modelled, only success and the new state.
