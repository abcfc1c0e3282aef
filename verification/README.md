# A verified model of the nyan-go expense ledger

nyan-go keeps one person's income and expenses behind a Discord bot. A message goes to a language model, which
answers with tool calls; the application reads first, then applies one batch of mutations to a SQLite ledger and
writes an audit event for each. Rows are never removed: a delete sets a timestamp and needs a confirmation token.
Around the ledger there are a daily reminder, a webhook page guarded by a password limiter, and a notes list with
offset paging.

This project models that system from the tool-call loop down to the tables and proves what it keeps over all runs.

| file | what it models |
|---|---|
| `Wrappers.dfy`, `Text.dfy` | option and result types; string order, decimal numerals, substring search |
| `Instants.dfy`, `Calendar.dfy` | stored timestamps: formatting, parsing, string order against time order, and instants as nanoseconds |
| `Amounts.dfy` | `formatAmount`, `parseDigits`, `parseAmount` with 64-bit wrap-around |
| `Ledger.dfy` | rows, inputs, requests and their validation |
| `AuditLog.dfy` | the audit log as a history: replay, rewind, histories of rows, balances |
| `Batches.dfy`, `Acceptance.dfy` | mutation batches as functions on the tables, every run of them, and when a batch succeeds |
| `Store.dfy` | the store as a class with an open-transaction snapshot; any statement or commit may fail |
| `Sorting.dfy`, `Queries.dfy`, `Statistics.dfy`, `Views.dfy` | ORDER BY, Search, Export, Statistics, and how they agree |
| `Reports.dfy` | what a report or a listing of a reachable ledger says, row by row |
| `Provider.dfy` | the function-call loop against an arbitrary provider |
| `Service.dfy` | the application service between tool calls and the store |
| `Deletions.dfy`, `Histories.dfy` | one-shot delete tokens, every interleaving of confirmations, and histories of whole calls |
| `Orchestrator.dfy`, `Clarifications.dfy` | one message end to end, and the conversation over many messages |
| `ToolCalls.dfy`, `Answers.dfy` | what each tool does in a conversation, and what the user is told |
| `Reminder.dfy`, `IdleDays.dfy` | the reminder scheduler over restarts, and its activity check against the ledger |
| `Limiter.dfy`, `Notes.dfy` | the password limiter, the notes list |

The code that updates state is modelled by classes and loops (`Store`, `LedgerService`, `DeleteConfirmer`,
`Orchestrator`, `PasswordLimiter`, `ReminderStore`, `Scheduler`, `NoteStore`); their methods are proved equal to
functions on values, and the theorems about whole runs are proved of those functions. Outside influence is a
parameter: the provider's replies, clocks, which statements fail, what a call meets when its arguments are decoded.

## What the proofs brought to light

- A dotted whole number before "tr" with exactly two groups is read as a decimal: "1.200tr" is 1.2 million, not
  1200 million (`Amounts.GroupedMillions` gives the exact condition). Shorthand amounts wrap silently when they
  pass 2^63 - 1 (`Amounts.UnitThenFraction`, `Amounts.Thousands`, `Amounts.GroupedMillions`).
- A comma after the unit makes the fraction ten times smaller: "1tr,5" is 1,050,000 where "1tr.5" is 1,500,000
  (`Amounts.CommaAfterUnit`), and the currency letter is not recognised as a capital (`Amounts.CapitalSignIsNotRead`).
- Stored times are compared as strings. A row with a fraction of a second inside a bound's own second falls on the
  wrong side of the filter (`Instants.RangeFilterExact`); timestamps outside the years 0 to 9999 cannot be read back
  (`Instants.ParseTimeOfFormatTime`), so a batch that would store one is refused and rolled back
  (`Acceptance.FirstUseSucceedsExactlyWhen`).
- For that reason the reminder overlooks a transaction at a fraction of the local day's first second, and counts
  one at a fraction of the next day's first second (`IdleDays.IdleExactlyWhen`, `IdleDays.ActivityCanBeMissed`).
- `NetDelta` can wrap although no net can: `Statistics.NetsDoNotOverflow` gives the exact condition on the selected
  rows, `Views.NetDeltaCanWrap` a ledger that one batch reaches.
- A date gets a second reminder exactly when nothing was recorded and the process that tried has ended
  (`Reminder.SecondTryExactlyWhen`), for example after a send that could not be recorded
  (`Reminder.UnrecordedSendRepeatsAfterRestart`).
- With K requests in flight an address can reach K + 4 counted failures, and no more (`Limiter.BoundIsReached`,
  `Limiter.FailuresAreBounded`).
- A deletion's prompt can be lost although its token exists: it is the answer exactly when the provider succeeds,
  no other mutation is queued and the provider adds no text of its own (`Orchestrator.PromptsAreShownExactlyWhen`,
  `Orchestrator.PromptsCanBeLost`).
- A note's update that cannot be read back is an error, and the note has changed (`Notes.NoteStore.Update`).

## Model

| member | source | states |
|---|---|---|
| Text.IndexIsLeftmost | internal/storage/sqlite/query.go:228-230 | substring search finds the leftmost occurrence, and fails only when there is none |
| Text.FixedOrder | internal/storage/sqlite/query.go:327 | zero-padded numerals of one width are ordered, and equal, exactly as their numbers are |
| Instants.ParseTimeOfFormatTime | internal/storage/sqlite/query.go:327-335 | reading back a formatted UTC instant gives the same instant exactly when its year has four digits, and fails otherwise |
| Instants.TextOrderIsTimeOrder | internal/storage/sqlite/query.go:327-335 | string order is time order if and only if the two are not in one second with one trimmed fraction a proper prefix of the other |
| Instants.RangeFilterExact | internal/storage/sqlite/query.go:212-218 | a half-open filter with whole-second bounds is exact if and only if the row has no fraction or is outside both bounds' seconds |
| Ledger.ScanParsesEveryTimestamp | internal/storage/sqlite/query.go:281-310 | scanning a row succeeds exactly when every stored timestamp parses, and then returns the instants that were stored |
| Ledger.ValidateAllSound | internal/storage/sqlite/store.go:97-101 | the validation loop passes exactly the batches whose every mutation is valid |
| Ledger.InputsAreJudged | internal/ledger/model.go:94-112 | an input is accepted if and only if its amount is positive, its category is a listed one of its type, its note has at most 2000 characters and its time is set; otherwise the complaint is the first of these that fails |
| Ledger.FirstComplaintCounts | internal/storage/sqlite/store.go:97-101 | a batch is refused with the complaint about its first mutation that is not good |
| Amounts.FormatAmount | internal/app/ledger.go:617-630 | the in-place loop that inserts dots yields the recursively grouped digits, sign included |
| Amounts.Int64Pow10 | internal/app/orchestrator.go:525-531 | the loop computes the power of ten modulo 2^64, and 1 for a negative exponent |
| Amounts.ParseDigitsOfAmountText | internal/app/orchestrator.go:499-514 | every printed amount from 0 to 2^63 - 1 is read back exactly |
| Amounts.CanonicalAmountsArePrinted | internal/app/orchestrator.go:499-514 | a dotted text without leading zeros is accepted with value n if and only if it is what is printed for n |
| Amounts.ParseAmountOfAmountText | internal/app/orchestrator.go:454-492 | the same through the amount parser, bare or with a trailing "d" or "đ" |
| Amounts.ParseAmountOfNumeral | internal/app/orchestrator.go:454-492 | digits and separators without a unit mean what the digit parser makes of them, with or without the currency letter |
| Amounts.UnitThenFraction | internal/app/orchestrator.go:469-478 | "AtrB" and "AtrieuB" denote A million and B as a decimal fraction; the stored value is exact if and only if that fits 64 bits, which A up to 9,223,372,036,853 ensures |
| Amounts.FractionThenUnit | internal/app/orchestrator.go:479-485 | "A.Btr" and "A,Btrieu" denote the same amount exactly, for A and B of one to three digits |
| Amounts.Thousands | internal/app/orchestrator.go:465-468 | "Nk" and "Nnghin" denote N thousand; exact if and only if N is at most (2^63 - 1) / 1000 |
| Amounts.GroupedMillions | internal/app/orchestrator.go:479-488 | for every printed whole number before "tr" the value read, wrap-around included; it is that many millions if and only if the product fits 64 bits and the number does not have exactly two groups |
| Amounts.DotAfterUnit | internal/app/orchestrator.go:471 | a dot between the unit and the fraction changes nothing |
| Amounts.CommaAfterUnit | internal/app/orchestrator.go:471-488 | a comma there counts as a digit: one or two digits after it mean a tenth of that fraction, so it is read like the dot if and only if they denote zero, and three digits are ignored |
| Amounts.SpacesDoNotMatter | internal/app/orchestrator.go:463-464 | a space with at least two characters after it can be left out |
| Amounts.CaseDoesNotMatter | internal/app/orchestrator.go:463 | a capital is read like its small letter anywhere in the text, except for a "D" among the last two characters |
| Amounts.CapitalSignIsNotRead | internal/app/orchestrator.go:463 | a numeral followed by "D" is never read, although it is with "d" |
| Amounts.SeparatorsAreAlike | internal/app/orchestrator.go:499-514 | a comma between digits is read like a dot |
| Amounts.NumbersAndTextsAgree | internal/app/orchestrator.go:454-462 | a JSON number means itself, as the text printed for it does; null is read like 0, and nothing else is an amount |
| AuditLog.ReplayIsSound | internal/storage/sqlite/store.go:187-199 | replaying a legal log gives rows with ids 1 to the number of creates, each under its own id and each a valid input |
| AuditLog.BeforeImagesChain | internal/storage/sqlite/store.go:200-244 | each event's before-image is the state the earlier events left of that id |
| AuditLog.RewindInvertsReplay | internal/storage/sqlite/query.go:337-357 | undoing any suffix of the log with its before-images gives exactly the table before that suffix |
| AuditLog.HistoriesAreWellFormed | internal/storage/sqlite/store.go:200-244 | each id's actions spell create, then updates and delete-restore pairs, then perhaps a last delete; the row is deleted exactly when the last action is delete |
| AuditLog.RowsAreReadOffTheirEvents | internal/storage/sqlite/store.go:184-248 | every row field is what its events say: scope, source and creation time of the create, last event's time, last recorded input, deletion time exactly when the last event is a delete |
| AuditLog.BalanceIsSumOfChanges | internal/storage/sqlite/store.go:184-248 | the signed sum over a scope's live rows is the sum over its events of signed after minus signed before |
| Batches.LogRebuildsTable | internal/storage/sqlite/store.go:184-248 | in every reachable state the audit log alone rebuilds the table and its id counter, with every row valid |
| Batches.RewindReachesThePast | internal/storage/sqlite/query.go:337-357 | undoing the events recorded since any earlier moment of a run gives that moment's table |
| Batches.RunInvariant | internal/storage/sqlite/store.go:90-154 | in every run with failures, the log is a legal history of the table, every recorded id exists in its batch's scope, and every row can be read |
| Batches.BatchKeepsInvariant | internal/storage/sqlite/store.go:90-154 | a successful batch keeps the invariant; rows, events and batch records only grow, and rows never change scope, source or creation time |
| Batches.FirstUseAppliesAll | internal/storage/sqlite/store.go:131-153 | a new source message applies every mutation in order, one event for each, touches no other row, records the ids, and returns their rows |
| Acceptance.FirstUseSucceedsExactlyWhen | internal/storage/sqlite/store.go:90-153 | a new source message succeeds if and only if its request is complete, its batch is not empty, every mutation meets the literal requirements on amount, type, category, note, time and id, every target is the requester's own row, live or deleted as its mutation needs when its turn comes, and every time stored has a four-digit year |
| Acceptance.ChecksFailWith | internal/storage/sqlite/store.go:90-101 | before the transaction an incomplete request, an empty batch, or the first mutation that is not good decides, with the error named for each case |
| Acceptance.FirstUseFailsWith | internal/storage/sqlite/store.go:200-244 | inside it the first mutation whose target is missing, another's, or in the wrong state decides, with the error named for each case |
| Acceptance.UnstorableBatchesFailWith | internal/storage/sqlite/query.go:267-310 | when all targets are in order but some time cannot be read back, the batch fails with the timestamp error |
| Batches.ReachableRowsAreGood | internal/ledger/model.go:94-112 | every row of every reachable state meets the literal requirements on its amount, type, category, note and time |
| Acceptance.CreateBatchRun | internal/storage/sqlite/store.go:156-163 | a create-only batch on an empty ledger stores exactly its inputs as rows 1, 2, and so on |
| Batches.RepeatOnlyReads | internal/storage/sqlite/store.go:108-126 | a source message that has a batch is refused from another context and otherwise answered from its record without any change |
| Batches.RecordedBatchReads | internal/storage/sqlite/query.go:267-277 | reading back a recorded batch cannot fail, and gives the rows of its ids in order |
| Batches.SourceMessageIsIdempotent | internal/storage/sqlite/store.go:87-154 | once a source message has succeeded, every later valid call in any run returns the same ids in the same order with current contents and changes nothing; another context always gets an error |
| Batches.EveryRowHasAHistory | internal/storage/sqlite/store.go:200-244 | the history shape in every reachable state, tied to the row's deletion mark |
| Batches.EveryRowIsReadOffTheLog | internal/storage/sqlite/store.go:184-248 | in every reachable state each row's every field is what the audit events of its id say |
| Batches.BalanceIsConserved | internal/storage/sqlite/store.go:184-248 | in every reachable state each scope's live balance is the sum of the changes its events record |
| Batches.ScopesAreIsolated | internal/storage/sqlite/query.go:257-265 | a batch changes no row and records no event of another scope, although its updates name only ids |
| Sorting.OrderingIsUnique | internal/storage/sqlite/query.go:72 | two lists of the same rows sorted by one strict order are equal, so ORDER BY has one possible result |
| Sorting.DescendingIsReversed | internal/storage/sqlite/query.go:45 | sorting by the opposite order gives the reversed list |
| Queries.TransactionWhere | internal/storage/sqlite/query.go:206-244 | it refuses exactly the invalid filters, with the first complaint; otherwise the clauses it collects hold of a row exactly when the filter matches it |
| Queries.ExportListsMatches | internal/storage/sqlite/query.go:67-78 | a valid export lists exactly the matching rows, each once, in order of stored time and id |
| Queries.SearchAgreesWithExport | internal/storage/sqlite/query.go:35-55 | Search shows the first twenty of the reversed export, its total is the export's length, and it reports a cut exactly when that exceeds twenty |
| Statistics.GroupsPartitionTheRows | internal/storage/sqlite/query.go:185-203 | groups have strictly ascending keys, none is empty, every row's key has one, each is the tally of its rows, and they sum to the totals |
| Statistics.CategoryGroupIsFiltered | internal/storage/sqlite/query.go:185-203 | the rows of a category group are those the ungrouped query selects when filtered to that category |
| Statistics.TypeGroupIsFiltered | internal/storage/sqlite/query.go:185-203 | the same for type groups |
| Statistics.StatisticsAreAdditive | internal/storage/sqlite/query.go:212-218 | the totals of [a,c) are the sum of those of [a,b) and [b,c) for whole-second bounds |
| Statistics.GroupsAreAdditive | internal/storage/sqlite/query.go:185-203 | for any grouping, by day, category or type, a key's group over [a,c) is the sum of its groups over [a,b) and [b,c), and it exists if and only if one of those does |
| Statistics.TallyOfSort | internal/storage/sqlite/query.go:176-184 | totals do not depend on the order of the rows |
| Statistics.NetsDoNotOverflow | internal/storage/sqlite/query.go:161-171 | in every report neither net wraps; the reported delta is the exact difference modulo 2^64, and exact if and only if the difference of the selected rows' sums fits 64 bits, which sums below 2^62 ensure |
| Statistics.GroupNetsDoNotOverflow | internal/storage/sqlite/query.go:192-199 | when the totals fit, so do each group's sums, and no group's net wraps |
| Views.ViewsAgree | internal/storage/sqlite/query.go:35-78 | in every reachable state a valid filter's Search and Export succeed and agree, and its totals are a fold over the exported rows |
| Views.OtherScopesSeeNothing | internal/storage/sqlite/query.go:206-211 | a batch of one scope leaves Search, Export and Statistics of every other scope unchanged |
| Views.DeleteThenRestoreIsInvisible | internal/storage/sqlite/store.go:215-244 | deleting a row and restoring it changes no result of Search, Export or Statistics except the row's modification time |
| Views.ExportedBalanceIsAudited | internal/storage/sqlite/query.go:67-78 | what a full export of a scope adds up to is the sum of the changes its audit events record |
| Views.NetDeltaCanWrap | internal/storage/sqlite/query.go:166 | for any two ranges, a ledger that one accepted batch reaches whose report gives -2 as the difference of its nets |
| Reports.ReportsAreGivenExactlyWhen | internal/storage/sqlite/query.go:133-173 | a report is given if and only if its scope, range, grouping and type are in order, its sums fit 64 bits, and the same holds of a comparison that is asked for; otherwise the error is that of the first fault |
| Reports.ReportsAreExact | internal/storage/sqlite/query.go:133-204 | a report's totals are the count and sums of the live rows of its scope, type, category and range; its groups, none for "total", have as ascending keys exactly the dates, categories or types of those rows, each with the count, sums and net of its rows; a comparison adds up its own range |
| Reports.GroupsAreReports | internal/storage/sqlite/query.go:185-203 | each group of a report by category or type has the totals and the net of the ungrouped report for that category or type |
| Reports.DaysShareGroups | internal/storage/sqlite/query.go:185 | in a report by days two counted rows share a group if and only if their year, month and day agree, and its key has ten characters |
| Reports.DatesTellDaysApart | internal/storage/sqlite/query.go:185-186 | the ten characters of a date are equal exactly for one day, and ordered as the days are |
| Reports.ListingsAreExact | internal/storage/sqlite/query.go:35-78 | a listing succeeds exactly for a good filter; Export then lists exactly the rows of the wanted scope, time, type, category, note and amount in order of stored time and id, and Search the newest twenty of them with the number of all |
| Reports.BoundsNarrowTheListing | internal/storage/sqlite/query.go:231-239 | a listing with bounds holds exactly the rows of the listing without them whose amount is at least a given minimum and at most a given maximum |
| Reports.SearchRequestsAreJudged | internal/app/ledger.go:470-516 | the service passes a search on unchanged, without deleted rows, exactly when the request is complete, range, type and bounds are good, the category is a listed one of the type and the text has at most 2000 characters; otherwise the first fault decides |
| Reports.ReportRequestsAreJudged | internal/app/ledger.go:446-468 | the same for reports, where a range or comparison range that is bad or given by half asks the user back |
| SqliteStore.Store.BeginTx | internal/storage/sqlite/store.go:102-105 | an open transaction keeps a snapshot of all tables; a failed begin opens none |
| SqliteStore.Store.Rollback | internal/storage/sqlite/store.go:106 | the tables are again those of the snapshot; after a commit it changes nothing |
| SqliteStore.Store.Commit | internal/storage/sqlite/store.go:150-152 | a successful commit drops the snapshot; a failed one leaves the transaction open |
| SqliteStore.Store.InsertAudit | internal/storage/sqlite/query.go:337-357 | one event is appended with the requester's identity, source and time and both images, or nothing is |
| SqliteStore.Store.Execute | internal/storage/sqlite/store.go:184-248 | one mutation, statement by statement: the result and new tables of the mutation function, or its error, or a failed statement |
| SqliteStore.Store.ReadByIDs | internal/storage/sqlite/query.go:267-277 | the loop reads the rows in order, or reports the first row that is missing or unreadable |
| SqliteStore.Store.ExecuteAll | internal/storage/sqlite/store.go:131-138 | the loop applies the mutations in order and collects their ids, or stops at the first error |
| SqliteStore.Store.ApplyBatch | internal/storage/sqlite/store.go:90-154 | whatever statement or commit fails, the batch is applied, recorded and answered as a whole or the tables are unchanged; a statement is blamed exactly when one failed |
| SqliteStore.Store.AnswerFromRecord | internal/storage/sqlite/store.go:108-126 | a repeated source message is checked against its context and answered by reading, with the tables unchanged |
| SqliteStore.Store.Get | internal/storage/sqlite/query.go:57-63 | it returns a live row of the requester's own scope, and reports every other id as not found |
| SqliteStore.Store.ScanTransactions | internal/storage/sqlite/query.go:312-325 | the loop returns all rows in order, or the first that does not parse |
| SqliteStore.Store.Search | internal/storage/sqlite/query.go:35-55 | unless a statement fails, the answer is the Search of the lemmas above |
| SqliteStore.Store.Export | internal/storage/sqlite/query.go:67-78 | unless a statement fails, the answer is the Export of the lemmas above |
| SqliteStore.Store.StatisticsQuery | internal/storage/sqlite/query.go:176-204 | totals and groups of the selected rows, an overflow exactly when a sum exceeds 64 bits, or a failed statement; without a grouping at most one statement is issued |
| SqliteStore.Store.Statistics | internal/storage/sqlite/query.go:128-174 | unless a statement fails, the answer is the report the statistics lemmas are about, with each refusal of a bad range, grouping or filter |
| Provider.DispatchCalls | internal/provider/responses/client.go:275-292 | the inner loop dispatches in order until a read follows a mutation or a call fails |
| Provider.RespondWithDispatcher | internal/provider/responses/client.go:242-304 | the loop, with its mutable variables, computes the recursive conversation's outcome and state in at most the allowed number of requests |
| Provider.RoundsAreOrdered | internal/provider/responses/client.go:275-292 | a round dispatches a prefix of its calls, reads before mutations, all of them unless it stopped, and answers each at its position |
| Provider.UsageStep | internal/provider/responses/client.go:262-267 | accumulated token counts are the sums of the replies' counts modulo 2^64, and absent exactly when no reply had any |
| Provider.ConversationShape | internal/provider/responses/client.go:242-304 | for any provider and dispatcher: at most n requests, each carrying the previous reply's calls answered in order; all rounds but the last are reads; a success returns exactly the dispatched calls with summed usage |
| ToolCalls.RepliesAreRefusedExactlyWhen | internal/provider/responses/client.go:217-226 | a reply is accepted exactly when it has an id and each call has one and names one of the seven tools |
| ToolCalls.ReadsAnswer | internal/app/orchestrator.go:95-118 | a search, a report or an export that meets no complaint returns its text, queues and prepares nothing and sets no mutation phase |
| ToolCalls.ReadsAreSentBack | internal/provider/responses/client.go:278-301 | when a reply consists of such reads and a round is left, another request is made that names the reply and carries, call by call, the texts the reads returned |
| ToolCalls.WritesEndTheConversation | internal/provider/responses/client.go:293-298 | a reply that names create, update, delete or restore is the last |
| ToolCalls.PlainRepliesSucceed | internal/provider/responses/client.go:242-304 | a reply without calls, or one of ordered calls with a write that all meet no complaint, ends the conversation successfully with its text and every call so far |
| ToolCalls.SuccessesDoWhatWasAsked | internal/app/orchestrator.go:90-138 | after a successful loop the k-th create, update or restore call is the k-th queued mutation with the input and id it met, each delete call is a preparation of the id it met at that time, the messages are the texts of reads and prompts in order, and the last export is kept |
| ToolCalls.ConfirmedMessagesAreCarriedOut | internal/app/orchestrator.go:133-147 | when Handle confirms on a new source message, the k-th create, update or restore call is the k-th event and returned row: a new id with the input met, the id met with the input met, or the id met restored; no other row changes |
| Service.LedgerService.ApplyMutations | internal/app/ledger.go:349-375 | the whole batch is checked before anything is stored; then the store's result, or an error and an unchanged ledger |
| Service.LedgerService.ExecuteCalls | internal/app/ledger.go:149-189 | reads first and then at most one batch of exactly the decoded mutations; every complaint leaves the ledger untouched |
| Service.ChecksCoincide | internal/app/ledger.go:351-375 | the service lets through exactly the batches the store's own validation accepts |
| Service.PlansAreOrdered | internal/app/ledger.go:161-180 | an accepted batch of calls is reads followed by mutations, with each read's result and each decoded mutation at its position |
| Service.PlanExists | internal/app/ledger.go:161-180 | a batch of calls is accepted if and only if its reads precede its mutations and every call is understood |
| Service.SearchesAreRefusedOnce | internal/app/ledger.go:470-516 | a search is let through exactly when the store accepts its filter, its category is known and its text is not too long, so no filter that reaches the store is refused there |
| Service.StatisticsAreRefusedOnce | internal/app/ledger.go:446-468 | a statistics request that is let through fails in the store only for an unsupported grouping or an overflowing sum |
| Service.AcceptedSearchesSucceed | internal/app/ledger.go:424-433 | in a reachable ledger an accepted search or export fails only by a failed statement |
| Service.ResolvesTheOnlyMatch | internal/app/ledger.go:527-541 | in a reachable ledger a target is resolved to a row if and only if it is the one row that matches |
| Service.ExportsAreLive | internal/app/ledger.go:664-684 | no deleted row reaches the CSV writer, so its own skipping never changes the file |
| Service.LedgerService.Search | internal/app/ledger.go:424-433 | the store's search of the accepted filter, or the first complaint, or a failed statement |
| Service.LedgerService.Statistics | internal/app/ledger.go:446-468 | the store's report for the accepted filter, or a question about the range, a complaint, or a failed statement |
| Service.LedgerService.ExportRows | internal/app/ledger.go:632-684 | the rows written are exactly the store's export, in its order |
| Service.LedgerService.ResolveUnique | internal/app/ledger.go:527-541 | none or several matches ask the user back; one match is returned |
| Deletions.DeleteConfirmer.Prepare | internal/app/confirmation.go:43-60 | a fresh token is bound to the request, its ids and an expiry five minutes on; a refusal changes nothing |
| Deletions.DeleteConfirmer.Take | internal/app/confirmation.go:62-67 | the lock section returns what the token was bound to and removes it |
| Deletions.DeleteConfirmer.Confirm | internal/app/confirmation.go:61-73 | the token is gone afterwards; it is honoured only in time and for its own user, guild and channel, and then exactly its rows are deleted in one batch or none is |
| Deletions.NextTokenIsFresh | internal/app/confirmation.go:50-58 | in every run the next token is neither pending nor claimed, so preparing overwrites nothing |
| Deletions.SystemRunInvariant | internal/app/confirmation.go:43-73 | in every interleaving: each pending or claimed token is backed by its preparation, a claimed token has left the table, no two calls claim one token |
| Deletions.WritesNeverDelete | internal/app/orchestrator.go:136-147 | a batch without deletes adds no delete event |
| Deletions.DeletionsAreConfirmed | internal/app/confirmation.go:43-73 | every delete event of every run was added by a confirmation whose token had been prepared for that row by the same user, guild and channel and was checked at most five minutes later |
| Deletions.TokensDeleteOnce | internal/app/confirmation.go:61-73 | no token is behind two delete batches, however the lock section, check and deletion of concurrent confirmations interleave |
| Deletions.DeletedRowsWereConfirmed | internal/app/confirmation.go:61-73 | a row that is deleted in a reachable state was named by a prepared and confirmed request |
| Deletions.ConfirmIsSteps | internal/app/confirmation.go:61-73 | a call of Confirm has the effect of its three steps in the interleaving machine, so the run theorems are about it |
| Orchestrator.Orchestrator.Converse | internal/app/orchestrator.go:115-127 | with or without continuation, the provider's calls are dispatched one after the other until one fails |
| Orchestrator.Orchestrator.Conclude | internal/app/orchestrator.go:128-164 | an error asks back or fails with the ledger untouched; queued mutations are applied in one batch or not at all; otherwise the answer is worded from the response |
| Orchestrator.Orchestrator.PrepareDeletions | internal/app/orchestrator.go:199-213 | each dispatched deletion gets the next fresh token |
| Orchestrator.Orchestrator.Handle | internal/app/orchestrator.go:73-165 | one message: what is sent, which tokens are prepared, the export kept, the one batch at most, and the pending entry afterwards; invalid, cancelled and expired messages touch nothing else |
| Orchestrator.Orchestrator.ConfirmDelete | internal/app/orchestrator.go:167-169 | the confirmation contract, and the only member of the class that can delete |
| Orchestrator.Orchestrator.TakeExport | internal/app/orchestrator.go:171-175 | a prepared file is handed out once |
| Orchestrator.PreparationsAreValid | internal/app/orchestrator.go:177-240 | whatever the provider asks for, Handle queues no delete, and prepares deletions of single rows in its requester's name only |
| Orchestrator.HandleIsSteps | internal/app/orchestrator.go:73-165 | a Handle call has the effect of preparations and at most one write without deletes in the interleaving machine |
| Orchestrator.PromptsAreShownExactlyWhen | internal/app/orchestrator.go:128-164 | when a message prepares deletions, the answer shows the prompts of all of them if and only if the provider succeeds, no mutation is queued and the provider's last text is blank |
| Orchestrator.PromptsCanBeLost | internal/app/orchestrator.go:155-164 | a provider that makes one delete call and says "ok": the token is prepared and "ok" is the whole answer |
| Orchestrator.FailuresAndActionsDisarm | internal/app/orchestrator.go:128-164 | a provider failure, a completed action, an analysis and every error leave nothing waiting |
| Answers.CancelsExactlyWhen | internal/app/orchestrator.go:79-82 | a message cancels if and only if it is "huy" or "hủy" in any case with nothing but white space around it |
| Answers.CallsFailExactlyWhen | internal/app/orchestrator.go:95-118 | a call of a known tool fails exactly for a read after a mutation, a complaint, or a deletion without a row or a token, with the error named for each; it then queues, prepares and tells nothing |
| Answers.FailedCallsEndTheConversation | internal/provider/responses/client.go:278-292 | after calls of a reply that succeed, a call that fails ends the conversation with its error: a read after a write, a complaint, a deletion without a row or without a token |
| Answers.ReadsRunOutOfRounds | internal/provider/responses/client.go:299-303 | when every reply only reads, as many requests are made as there are rounds, and the outcome is the round limit |
| Answers.PlansFailWith | internal/app/ledger.go:151-189 | a batch of calls is refused with the fault of its first bad call: a read after a mutation, or what decoding or reading it gave |
| Answers.RepliesAreAnswered | internal/app/orchestrator.go:126-164 | without queued mutations the ledger is untouched; the answer is a question, trouble, silence, the tools' messages, the notice, an analysis or the text itself, exactly by what failed, what was called and how the last text begins |
| Answers.BadBatchesAreAnswered | internal/app/orchestrator.go:133-146 | of queued mutations the first that is not good decides: a bad amount, type, category, time or id asks back and keeps the message, a note that is too long is an error; nothing is stored |
| Answers.GoodBatchesAreAnswered | internal/app/orchestrator.go:133-148 | good mutations on a new source message are confirmed if and only if every target is in the state its turn needs; otherwise the first that is not decides the error, the user is not asked back, and nothing is stored |
| Answers.UnstorableBatchesAreAnswered | internal/app/orchestrator.go:533-547 | when all targets are in order but a time cannot be read back, the user is asked back and nothing is stored |
| Orchestrator.FoldQueues | internal/app/orchestrator.go:95-114 | dispatching reads and then mutations queues exactly the mutations asked for, in order |
| Orchestrator.BatchIsWhatWasAsked | internal/app/orchestrator.go:115-147 | when the loop succeeds, the batch applied is exactly what the response's calls asked for, in their order |
| Orchestrator.PhaseGuardIsUnreachable | internal/app/orchestrator.go:96-98 | inside the loop Handle's own read-after-mutation guard can never fire |
| Histories.HistoriesAreRuns | internal/app/orchestrator.go:73-169 | every sequence of Handle and ConfirmDelete outcomes and restarts is a run of the interleaving machine with the same tables, tokens and preparations |
| Histories.DeletionsOfHistoriesAreConfirmed | internal/app/orchestrator.go:73-169 | in every such sequence each delete event was added by a ConfirmDelete that was honoured for that row, under a token that an earlier message of the same user, guild and channel prepared at most five minutes before |
| Histories.TimelyConfirmationsWork | internal/app/confirmation.go:61-77 | a prepared token that was neither confirmed nor lost since is refused if and only if another scope confirms it or more than five minutes have passed; otherwise, when no statement fails and the confirming source is new, exactly the prepared row is deleted if and only if it is live, the requester's own, and the time can be stored |
| Clarifications.ProviderGetsTheChain | internal/app/orchestrator.go:79-89 | in every run a message is cancelled, refused as late, or sent as the newline-join of its user's unbroken chain of clarified messages, with every gap under ten minutes |
| Clarifications.PendingIsWaiting | internal/app/orchestrator.go:83-89 | the pending map holds exactly each user's waiting chain and its expiry |
| Clarifications.OtherUsersKeepTheirs | internal/app/orchestrator.go:80-88 | a message never changes another user's pending entry |
| Clarifications.ChainsEnd | internal/app/orchestrator.go:79-89 | in every run, a message whose predecessor was cancelled, came too late or was not answered with a question reaches the provider alone, as does a first message |
| Clarifications.ChainsGoOn | internal/app/orchestrator.go:83-89 | otherwise it is joined to the waiting chain, or refused when ten minutes have passed |
| Limiter.PasswordLimiter.AllowPasswordAttempt | discord-webhook/server.go:435-446 | the loop drops exactly the ended windows; an address is admitted when it has fewer than five failures in a running window |
| Limiter.PasswordLimiter.RecordPasswordFailure | discord-webhook/server.go:454-470 | a running window counts on, otherwise a new one starts; a full table gives up one entry first |
| Limiter.PasswordLimiter.ClearPasswordFailures | discord-webhook/server.go:448-452 | the address's window is removed and no other |
| Limiter.FailuresAreBounded | discord-webhook/server.go:341-357 | with at most k requests in flight, interleaved at the lock sections, no address counts more than k + 4 failures and the table never exceeds 1024 entries |
| Limiter.FullWindowAdmitsNobody | discord-webhook/server.go:435-470 | a full window stays full and admits nobody until it ends, unless a success clears it or it is evicted; failures of other addresses may come at any time |
| Limiter.WindowsAreMinutes | discord-webhook/server.go:454-470 | in every run each window began with one failure of its address, lasts a minute from it whatever follows, and counts the failures since |
| Limiter.AttemptsAreRefusedExactlyWhen | discord-webhook/server.go:435-446 | an attempt is refused if and only if a window of the address still runs that counts five failures or more |
| Limiter.BoundIsReached | discord-webhook/server.go:341-357 | for every k there is a run with at most k requests in flight that counts k + 4 failures |
| Reminder.DayWindow | internal/reminder/scheduler.go:99-100 | the activity query's range is exactly the local day |
| Reminder.ReminderStore.ReminderState | internal/storage/sqlite/reminder.go:16-38 | the user's stored delivery, none when there is no row, an error when its time does not parse, or a failed read |
| Reminder.ReminderStore.RecordReminderDelivery | internal/storage/sqlite/reminder.go:40-49 | an upsert of the user's row, or an error and no change |
| Reminder.Scheduler.Check | internal/reminder/scheduler.go:79-116 | the new memory, stored row and outcome are those of the check function of the lemmas below, and other users' rows are unchanged |
| Reminder.DatesAreSettledOnce | internal/reminder/scheduler.go:87-115 | in one process, after a check at the reminder's minute that did not fail to read or search, every later check of that date is skipped |
| Reminder.OneAttemptPerDate | internal/reminder/scheduler.go:108-115 | one process tries at most one send per local date, even when sending or recording fails |
| Reminder.RecordedDeliveriesAreSpaced | internal/reminder/scheduler.go:91-98 | with a clock that does not run backwards, across restarts, every try after a recorded delivery is on a later local date and a cooldown apart |
| Reminder.SecondTryExactlyWhen | internal/reminder/scheduler.go:87-115 | in every run with restarts, after a try a check of the same date that finds no transactions tries again if and only if no delivery was recorded in between and every check that settled the date is followed by a restart |
| Reminder.TriedExactlyWhen | internal/reminder/scheduler.go:79-116 | in every run a check tries to send if and only if it comes at the reminder's minute, both reads succeed and find no transaction, no process still running has settled the date, and the last recorded delivery is readable, of another date and a cooldown ago; what then happens follows from the send and the record |
| Reminder.DatesAreRememberedExactlyWhen | internal/reminder/scheduler.go:87-111 | a date is in the process's memory if and only if a check settled it and no restart has come since |
| Reminder.UnrecordedSendRepeatsAfterRestart | internal/reminder/scheduler.go:108-114 | at any instant of the reminder's minute: a send that was not recorded, a restart, and a second send |
| IdleDays.LocalDays | internal/reminder/scheduler.go:99-100 | 17:00 UTC on two successive days of a month bound the local day of every instant between them |
| IdleDays.IdleExactlyWhen | internal/reminder/scheduler.go:99-107 | in a reachable ledger the activity search finds nothing if and only if no live row of the scope counts: the rows of the local day, without those at a fraction of its first second, and with those at a fraction of the next day's |
| IdleDays.RemindersMeanIdleDays | internal/reminder/scheduler.go:99-109 | a reminder is tried only when no live row of the scope occurred on the local day, save at a fraction of its first second |
| IdleDays.ActivityCanBeMissed | internal/reminder/scheduler.go:99-107 | for every day, a ledger one batch reaches with a row of that day that the check does not find |
| Calendar.EarlierIsFewerNanos | internal/reminder/scheduler.go:82-99 | calendar instants are ordered as their nanoseconds, across months, leap years and centuries |
| Calendar.DayOfYear | internal/reminder/scheduler.go:82-99 | the day count of an instant from the lengths of the months and the leap-year rule |
| Calendar.FourDigitSpan | internal/storage/sqlite/query.go:327-335 | the years that can be written are exactly one span of nanoseconds |
| Reminder.WakesAreDaily | internal/reminder/scheduler.go:118-126 | each wake is in (now, now + 24h] at the reminder's minute, a timer less than a minute late still finds it, and the next wake is a day later |
| Reminder.NoWakeIsMissed | internal/reminder/scheduler.go:118-126 | no reminder instant lies strictly between now and the wake |
| Notes.NoteStore.Create | internal/storage/notes/sqlite.go:62-76 | a valid note is stored under a new id with both times now, or nothing changes |
| Notes.NoteStore.List | internal/storage/notes/sqlite.go:78-99 | the requested slice of the listing; limits up to 101 are accepted |
| Notes.NoteStore.Update | internal/storage/notes/sqlite.go:101-125 | content and modification time of that note change and nothing else, also when reading it back then fails; every refusal before the write changes nothing |
| Notes.NoteStore.Delete | internal/storage/notes/sqlite.go:127-158 | that note is removed and returned, or nothing changes |
| Notes.HandleListNotes | discord-webhook/server.go:116-149 | it refuses exactly the bad parameters; otherwise the page, whether there are more, and the next offset, the probe of one more note being always accepted |
| Notes.ListingHoldsEveryNoteOnce | internal/storage/notes/sqlite.go:82 | the listing holds every note exactly once, newest first by modification time and id |
| Notes.PagesCoverTheListing | discord-webhook/server.go:126-148 | following the next offset from 0 ends and yields every note once in order if and only if the notes fit the offsets the handler accepts; up to 1,000,000 notes always do |

## Left out

- HTTP, multipart and Discord transport, configuration and the web page: input, output and user interface.
- The SQL engine: statements are taken as their relational meaning, with failures at any statement or commit; the AUTOINCREMENT counter has no upper limit here.
- JSON and CSV encoding: values are stored and read back as themselves. Encoding a time fails outside the years 0 to 9999 of its own zone; the model refuses such a row when it is read back, in UTC.
- Time zones: instants are UTC calendar fields, the reminder uses the fixed offset +07:00, and reading a timestamp covers texts that end in "Z", the only ones the store writes.
- Orchestrator.Orchestrator.Handle: decoding tool arguments, inferring categories and times, the wording of answers and whether a text asks back are inputs (`Met`, `Reading`, `wording`); tokens are prepared after the loop, which is where their effect is first visible, since Handle holds its lock and the interleavings with confirmations are those of `Deletions.Step`.
- Service.LedgerService.ExecuteCalls: decoding a mutation's arguments and answering a read are given functions of the call.
- Provider.RespondWithDispatcher: a payload is either undecodable or its identity, text, calls and usage; usage recording, latency and timeouts change no result.
- Amounts.CaseDoesNotMatter: lower-casing covers the capitals whose small letter is an ASCII one, the only ones the parser looks for.
- Deletions.DeleteConfirmer.Prepare: random tokens are arbitrary texts of which no two are equal; that random ones collide is not modelled.
- Limiter.FailuresAreBounded: comparing the password is an admitted request that ends in success or failure; the clock readings are arbitrary, so the bound needs no assumption on time.
- Reminder.Scheduler.Check: local dates are day numbers, and what the activity search returns is an input, which the lemmas of `IdleDays` tie to the ledger for days whose bounds have four-digit years; the endless loop of Run is its wake function and one check for each wake.
- SqliteStore.Store.Statistics: the percentage of a comparison is a real number, without floating-point rounding.
- Notes.PagesCoverTheListing: about an unchanged store; a note edited between two pages can move to a page already read.
- Vietnamese folding, category keywords, prompt and confirmation texts, password hashing, the sorted category list, and the create, update and restore helpers that wrap one batch: they would add only easy members.
