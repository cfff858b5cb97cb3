# Verification of the accounting, billing, sync-queue, clustering, token and flat-number logic

This Dafny project models the stateful core of the back end and proves what it keeps over whole runs.

* **Ledger** (`Tables`, `Validation`, `Journal`, `PostedEntries`, `Reports`, `Statements`, `ReportTotals`, `Coa`,
  `CoaEffects`, `SourcePosting`, `Resolution`, `Runs`, `Isolation`, `ConcurrentPosting`, `Ledger`, over the toolkit
  `Wrappers`, `Seqs`, `Sums`, `Money`, `Text`). Five tables (accounts, entries, lines, source accounts, mappings) with
  their constraints as the predicate `WellFormed`. The class `Ledger` holds them as fields; each operation is proved
  against a specification function, and the theorems are about those functions: what each call answers, stores and
  leaves alone in the words of its request, every run stays well formed, the reports are sums over the stored lines
  and agree with each other, posting through the chart-of-accounts mapping refines direct posting, scopes do not
  interfere, and one idempotency key gives one entry under any interleaving of lookups and inserts.
* **Maintenance billing** (`Splits`, `BillGeneration`, `Bills`, `BillEntries`, `BillRuns`, `BillPosting`,
  `BillSafety`, `BillBreaks`, `BillConservation`, `ActiveBills`, `BillingService`). Two stores, the bill collection
  and the ledger. On every run of generate, regenerate, extra charge, post and reverse, mixed with any other
  accounting operation, every account's balance from maintenance journals is the signed sum of the positive components
  of the bills that are posted. A posting is also split into the journal commit, made from a copy of the bill that may
  have gone stale, and the bill update, with anything in between or no update at all; a reversal may be cut off after
  its commit; and anyone may post a direct journal under a maintenance key. The stores then stay in agreement exactly
  until a step generates the month of a cut posting, reverses a cut posting, adds a charge that shows to one, commits
  a copy that its bill no longer matches, or is a direct journal that does not do what its key says. Repeating a cut
  call settles the bill. A second exact condition says when a bill's posted flag is in line with its entry, and a
  third when every flat keeps a single active bill per month.
* **Legal sync queue** (`SyncQueue`, `JobStates`, `SyncWorker`). Any number of workers as atomic steps on shared jobs,
  a recovery scan being one step per released job, with the unique index on pending jobs as a step that can fail.
  Termination measure, and exact accounts of when ownership of a claim is lost and when a job is stranded for ever.
* **Title clustering** (`Dedup`). The merge loop over shared cluster objects computes connected components; both
  callers keep the least index of each.
* **Refresh tokens** (`Tokens`, `TokenAnswers`, `TokenRaces`). Token families under login, rotation and logout as
  single steps, and the races of any number of rotations as the separate find, store and retire calls they are, with
  logins and logouts in between.
* **Flat numbers** (`FlatNumbers`). Saving block settings, generating flats and storing them under the unique index on
  the number; the exact condition under which a save succeeds.

Money is an integer number of paise. Inputs that the source rounds are reals counted in paise, rounded half up (away
from zero for `_q`). Ledger row ids are positions in their table: nothing in the ledger is ever deleted. Dates are day
numbers. Clocks, generated ids and user names are parameters.

Where the code falls short of what its names or messages promise, the code is kept and the gap is stated:

* The last equal share can be negative (`Splits.LastShareNegativeIff`, `Splits.WholeLastShareNegativeIff`), and
  posting then debits more than the bill's own total (`Bills.NothingDroppedIff`, `BillGeneration.GeneratedTotal`).
* With no resident counted, a positive water total is not billed at all (`Splits.WaterNearTotalIff`).
* Regeneration adds a second active bill exactly when the flat still has an unreversed one of that month
  (`ActiveBills.StepOneActiveIff`, `ActiveBills.RunOneActiveIff`, `ActiveBills.SecondBill`); both can be posted, and
  the flat is debited twice (`ActiveBills.RegeneratedPostsTwice`). The only other way to two active bills is a posting
  that marks a bill reversed since its commit.
* A posting cut off before the bill update can be orphaned by generating its month again or by reversing the bill, and
  a charge added before the repeat can be lost (`BillConservation.StepConservesIff`,
  `BillConservation.LateChargeLostIff`).
* post-bills reads the month once and then posts from those copies: a bill reversed, replaced or charged in between is
  posted all the same, or is left marked posted without a standing entry (`BillBreaks.CommitBreaks`,
  `BillConservation.StepSettledIff`).
* A direct journal may carry a maintenance key in its X-Idempotency-Key header; unless it does exactly what the owner
  of the key would do, bills and ledger disagree (`BillBreaks.LedgerStepIff`).
* A source journal is dropped without an error, answered with another entry, exactly when an entry of the scope
  already carries its prefixed key (`SourcePosting.JournalDroppedIff`). Different callers' keys become one when their
  stripped keys agree on what survives the cut at 120, so outer blanks and long tails are lost
  (`SourcePosting.KeysCollideIff`), and a direct journal's header may already hold a source system's prefix
  (`SourcePosting.DirectKeyShadows`).
* A late worker can finish a job that another worker has re-claimed (`QueueModel.LateCompletion`), exactly when a
  recovery has released a job whose claimer was still running (`QueueModel.OwnershipRunIff`).
* Putting back a job on its last attempt strands it and blocks its query for ever (`QueueModel.StrandsStepIff`,
  `QueueModel.RecoveryStrandsIff`, `QueueModel.StuckForever`).
* Rotation changes a token's application key exactly when the configured default is itself an alias of an allowed key
  and the token carries the default (`Tokens.RotationDriftsIff`, `Tokens.PathDriftsIff`,
  `Tokens.UnstableDefaultDrifts`).
* Two rotations of one token leave two live successors exactly when each finds the token before the other retires it
  and before anyone logs it out (`TokenRaces.TwoRotationsForkIff`); a logout that comes after a rotation's find does
  not stop it (`TokenRaces.LogoutTooLateIff`).
* Flat numbers collide under the allowed clamp of 200 (`FlatNumbers.DistinctIff`, `FlatNumbers.Clash1101`); the save
  has already removed the old flats when the insert fails (`FlatNumbers.Society.SaveSettings`).

`dafny verify dfyconfig.toml` checks everything.

## Model

| member | source | states |
|---|---|---|
| Money.Nearest | app/accounting/service.py:102-103 | both roundings of the system are nearest-paisa maps, and they differ exactly on negative ties |
| Money.RoundUnique | app/modules/housing_compat/router.py:377-378 | round-half-up is the only integer within the half-open half-paisa band |
| Validation.AcceptedIff | app/accounting/service.py:185-230 | lines are accepted exactly when no code is blank and the rounded lines are a double entry; the accepted totals are the line sums; the positive-total check never fires |
| Validation.BalancedVerdict | app/accounting/service.py:218-228 | one-sided lines with equal positive sums can be refused only for naming a single account |
| Validation.VerdictCauses | app/accounting/service.py:185-278 | what each refusal means, in the order of the checks: too few lines, the fault of the first bad line, a side missing, one account only, different sums |
| Validation.Validate | app/accounting/service.py:233-278 | the validation loop, shared by both validators, returns the first failing check's error or the totals and normalised lines |
| Journal.PostKeeps | app/accounting/service.py:399-460 | posting any request keeps every table constraint and the balance of every entry |
| Journal.PostAccepts | app/accounting/service.py:409-428 | a valid request on accounts of the scope is accepted under any key but the empty string |
| Journal.PostCreates | app/accounting/service.py:430-460 | a created entry is a double entry appended with the rounded request lines, and nothing else changes |
| Journal.PostFresh | app/accounting/service.py:411-460 | a valid request under a fresh key appends its entry under that key |
| PostedEntries.PostStores | app/accounting/service.py:430-443 | the created entry holds the request's scope, date, description, reference, key and author, and totals its rounded debits |
| PostedEntries.PostStoresLines | app/accounting/service.py:445-456 | its lines are the request's accounts and rounded amounts in order; no other row changes |
| PostedEntries.ValidIff | app/accounting/service.py:185-230 | lines on account ids are valid exactly when they are a double entry once rounded |
| PostedEntries.PostAnswers | app/accounting/service.py:409-428 | which answer is given, by conditions on request and tables: invalid lines, a key in use, accounts outside the scope, a second empty key, else creation |
| PostedEntries.PostMovesReports | app/accounting/service.py:1171-1209 | a created post adds its rounded lines to exactly the reports of its scope that cover its date |
| PostedEntries.CreateAccountIff | app/accounting/models/entities.py:30-53 | an account is created exactly when its flags fit its type and its code is free in the scope |
| PostedEntries.RenameIs | app/accounting/service.py:329-349 | renaming by code changes that account's name and nothing else |
| Journal.AppendKeeps | app/accounting/models/entities.py:77-110 | writing one double-entry block on accounts of the scope keeps the key index, the balance checks and the one-sided lines |
| Journal.CreateAccountKeeps | app/accounting/service.py:281-310 | creating an account keeps account codes unique per scope, adds at most that account, and leaves every entry and line in place |
| Journal.RenameKeeps | app/accounting/service.py:329-349 | renaming keeps every constraint |
| Reports.RowsTotal | app/accounting/service.py:1157-1209 | grouping conserves: the rows of the chosen account types add up to the sum over the matching lines |
| Reports.NothingLost | app/accounting/service.py:1090-1108 | up to any date the debits and credits of a scope cancel |
| Reports.AccountingEquation | app/accounting/service.py:1310-1380 | assets equal liabilities plus equity plus unclosed earnings, in every well-formed database, scope and date |
| Reports.PeriodIsDifference | app/accounting/service.py:1171-1204 | for any account filter, a period's total is the change in the totals up to its ends |
| Reports.ProfitComposes | app/accounting/service.py:1141-1154 | net profit of a period is the growth of the balance sheet's unclosed earnings |
| Reports.OrderedLedger | app/accounting/service.py:1034-1058 | the ordered ledger holds exactly the matching lines, by date and then by line id |
| Reports.RunningIsNet | app/accounting/service.py:1058-1077 | at the last line dated at most d the running balance is the account's net as of d |
| Statements.ReportsAgree | app/accounting/service.py:1082-1450 | any two reports of one scope over the same dates list the same accounts, as far as both filters admit them, with the same totals |
| Statements.LedgerMatchesTrialBalance | app/accounting/service.py:1034-1132 | the last ledger line up to d carries the trial balance's net; an account is missing from the trial balance exactly when there is no such line |
| Statements.ReceiptsAreCashChange | app/accounting/service.py:1265-1307 | net receipts of a period are the change in the cash and bank accounts' net balance |
| Statements.SelectIsReport | app/accounting/service.py:1220-1262 | selecting rows of some types out of one grouped query gives the report of exactly those types |
| Statements.KindTotals | app/accounting/service.py:1135-1154 | balances of one account type over the rows add up to the type's balance over the lines |
| ReportTotals.ReceiptsAre | app/accounting/service.py:1265-1307 | receipts and payments are the debits and credits that the period's entries put on cash and bank accounts |
| ReportTotals.OutstandingIs | app/accounting/service.py:1383-1450 | receivables and payables are the nets of the flagged accounts up to the day |
| ReportTotals.ProfitIs | app/accounting/service.py:1212-1262 | income, expense and net profit as sums over the stored lines of the period |
| ReportTotals.SheetIs | app/accounting/service.py:1310-1380 | the balance sheet's totals and earnings as sums over the stored lines up to the day |
| ReportTotals.ReportLineIs | app/accounting/service.py:1193-1205 | a printed line carries its account's own debits and credits in the report's days, and the net on the right side |
| ReportTotals.ReportLists | app/accounting/service.py:1184-1204 | a report lists an account exactly when its types and flags fit and it has a line in the report's days |
| ReportTotals.LedgerPrints | app/accounting/service.py:1034-1077 | a ledger prints exactly the account's lines, by entry date and line id, with their own dates, texts and amounts |
| ReportTotals.LedgerRuns | app/accounting/service.py:1053-1077 | the running balance grows by debit less credit from zero |
| Coa.StatusLaws | app/accounting/service.py:758-865 | the gaps number the draft plus the unmapped; active, draft and unmapped partition the active source accounts, so the zero clamp is never used |
| Coa.ApproveSettles | app/accounting/service.py:868-926 | after an unrestricted approval nothing is in draft, and the active count is the active source accounts that have any mapping |
| Coa.UpsertSourcesKeeps | app/accounting/service.py:470-555 | upserting source accounts keeps their codes unique per scope and system, and every other constraint |
| Coa.UpsertMappingsKeeps | app/accounting/service.py:600-716 | upserting mappings keeps one mapping per source account, each inside its scope |
| Coa.ApproveKeeps | app/accounting/service.py:868-926 | approval keeps every constraint |
| CoaEffects.UpsertSourcesStores | app/accounting/service.py:470-555 | the last item of every code is stored stripped and active, other rows stay; refused exactly for a blank code or name |
| CoaEffects.UpsertSourcesRefuses | app/accounting/service.py:480-492 | a refusal names the first item with a blank code or name, the code first |
| CoaEffects.UpsertMappingsStores | app/accounting/service.py:600-716 | the last item of every code is stored as the mapping of its source account, with its account, status, notes and author |
| CoaEffects.UpsertMappingsSpares | app/accounting/service.py:600-716 | mappings of source accounts the request does not name stay as they are |
| CoaEffects.UpsertMappingsAnswers | app/accounting/service.py:609-660 | refused for a blank code, then an unknown source account, then an account outside the scope, and for nothing else |
| CoaEffects.ApproveStores | app/accounting/service.py:868-926 | exactly the mappings of the active source accounts asked for turn active in the approver's name |
| CoaEffects.ApproveAnswers | app/accounting/service.py:868-910 | what each refusal of an approval means |
| CoaEffects.ApproveMissesIff | app/accounting/service.py:880-900 | an approval is refused for a code that no covered source account carries, exactly when it is not refused before that |
| CoaEffects.ApprovedCount | app/accounting/service.py:911-919 | the reported count is the number of mappings changed |
| SourcePosting.NetByCode | app/accounting/service.py:972-1012 | on the translated lines an account's net is the sum of the nets of the source codes mapped to it |
| SourcePosting.SourceRefinesDirect | app/accounting/service.py:929-1012 | an accepted source journal writes one entry with the source totals whose lines give every account the net of the codes that resolve to it |
| SourcePosting.MappedIsDirect | app/accounting/service.py:929-1012 | with every code actively mapped, posting a source journal is direct posting of the canonical request |
| SourcePosting.MappedPostFailsIff | app/accounting/service.py:929-1012 | with every code actively mapped the only failure left is all codes collapsing to one account, never a missing account or a taken key |
| Resolution.CanonicalIff | app/accounting/service.py:936-958 | a code resolves to an account exactly when an active source account of the scope and system carries it and an active mapping of that source account leads there |
| Resolution.SourceValidIff | app/accounting/service.py:233-278 | source lines are valid exactly when no stripped code is empty and they are a double entry by code |
| Resolution.StoredKeyIs | app/accounting/service.py:463-467 | the stored key begins with the system's name and the stripped key, cut at 120 |
| Text.StripCuts | app/accounting/service.py:463-467 | stripping cuts white space off both ends and leaves none there |
| Text.IsSpaceIff | app/accounting/service.py:463-467 | the characters that count as white space |
| Resolution.SourceAnswers | app/accounting/service.py:929-969 | which answer a source post gives: invalid lines, then codes no active source account carries, then codes without an active mapping, else the direct post |
| Resolution.SourceStores | app/accounting/service.py:995-1012 | the created entry holds the source request's date, description and reference under the prefixed key |
| Resolution.SourceStoresLines | app/accounting/service.py:972-993 | every line lies on the account that the active mapping of its stripped code leads to, with its rounded amounts |
| Resolution.GapsIff | app/accounting/service.py:758-817 | the gap list is the active source accounts of the system without an active mapping |
| Resolution.NoGapsResolve | app/accounting/service.py:758-817 | with an empty gap list every code of an active source account resolves |
| SourcePosting.KeysCollideIff | app/accounting/service.py:463-467 | two callers' keys become one exactly when the systems agree and the stripped keys agree on the characters that survive the cut at 120 |
| SourcePosting.JournalDroppedIff | app/accounting/service.py:929-1012 | a valid, fully mapped journal is always answered; it is written exactly when no entry of the scope carries its prefixed key, and is otherwise answered with that entry |
| SourcePosting.DirectKeyShadows | app/accounting/router.py:358-380 | a direct journal under ghar_mitra:1 makes the source journal under key 1 be dropped |
| Runs.ApplyKeeps | app/accounting/models/entities.py:77-84 | every operation keeps every table constraint |
| Runs.RunKeeps | app/accounting/models/entities.py:77-110 | every run from a well-formed database, the empty one in particular, stays well formed |
| Isolation.StepUntouched | app/accounting/service.py:121-126 | no operation touches a row of another scope |
| Isolation.RunUntouched | app/accounting/service.py:420-456 | a whole run in other scopes leaves every row of a scope alone |
| Isolation.ReportSame | app/accounting/service.py:1171-1204 | grouped reports depend on their scope's rows only |
| Isolation.LedgerSame | app/accounting/service.py:1034-1077 | account ledgers depend on their scope's rows only |
| Isolation.NonInterference | app/accounting/service.py:121-126 | after any run in other scopes every report, ledger and mapping status of a scope reads as before |
| ConcurrentPosting.OneEntryPerKey | app/accounting/models/entities.py:77-78 | with lookup and insert interleaved in any order, all successful answers for one scope and key name the same entry |
| Journal.ReplayReturnsEntry | app/accounting/service.py:411-418 | a later valid post under a stored non-empty key returns that entry and writes nothing |
| ConcurrentPosting.LookThenCommitIsPost | app/accounting/service.py:399-460 | uninterrupted, the two steps are exactly one post |
| LedgerService.Ledger.constructor | app/accounting/models/entities.py:77-110 | the empty tables satisfy every constraint |
| LedgerService.Ledger.AddAccount | app/accounting/service.py:281-310 | adds an account or refuses a taken code, and keeps the tables well formed |
| LedgerService.Ledger.UpdateAccountName | app/accounting/service.py:329-349 | renames the account with the code, or reports that it is missing |
| LedgerService.Ledger.PostJournalEntry | app/accounting/service.py:399-460 | performs the specified post on the tables, lines written one by one |
| LedgerService.Ledger.WriteLines | app/accounting/service.py:445-456 | appends one row per normalised line |
| LedgerService.Ledger.PostSourceJournalEntry | app/accounting/service.py:929-1012 | performs the specified post through the mapping |
| LedgerService.Ledger.CanonicalLines | app/accounting/service.py:972-993 | rewrites every line to its canonical account |
| LedgerService.Ledger.UpsertSourceAccounts | app/accounting/service.py:470-555 | updates or inserts each source account |
| LedgerService.Ledger.UpsertCoaMappings | app/accounting/service.py:600-716 | all checks come before any write; a failing request changes nothing |
| LedgerService.Ledger.KeyItems | app/accounting/service.py:609-619 | keeps the last item of each key and refuses a blank code |
| LedgerService.Ledger.ApproveCoaMappings | app/accounting/service.py:868-926 | activates the covered mappings and counts those that were not active |
| LedgerService.Ledger.ActivateMappings | app/accounting/service.py:911-919 | changes exactly the mappings of the covered source accounts |
| LedgerService.Ledger.GetCoaMappingGaps | app/accounting/service.py:758-817 | lists the active source accounts without an active mapping |
| LedgerService.Ledger.GetCoaOnboardingStatus | app/accounting/service.py:820-865 | its counters add up to the total and agree with the gap list |
| LedgerService.Ledger.GlSumsByAccount | app/accounting/service.py:1157-1209 | one row per account with a matching line, carrying that account's sums |
| LedgerService.Ledger.GetLedgerLines | app/accounting/service.py:1015-1079 | the account's lines in date order, each with the balance so far; an account of another scope is not found |
| LedgerService.Ledger.GetTrialBalance | app/accounting/service.py:1082-1132 | debit and credit totals of the trial balance agree |
| LedgerService.Ledger.GetProfitLoss | app/accounting/service.py:1212-1262 | net profit is income less expense over the period's lines |
| LedgerService.Ledger.GetReceiptsPayments | app/accounting/service.py:1265-1307 | receipts and payments are the debits and credits of the cash and bank accounts |
| LedgerService.Ledger.NetProfitFromRows | app/accounting/service.py:1141-1154 | income balances less expense balances of the rows |
| LedgerService.Ledger.GetBalanceSheet | app/accounting/service.py:1310-1380 | the two sides come from separate queries and still agree: assets equal liabilities plus equity with unclosed earnings |
| LedgerService.Ledger.GetAccountsReceivable | app/accounting/service.py:1383-1415 | the total is the net of the receivable accounts |
| LedgerService.Ledger.GetAccountsPayable | app/accounting/service.py:1418-1450 | the total is the credit net of the payable accounts |
| Splits.EqualSharesConserve | app/modules/housing_compat/router.py:403-411 | equal shares over all flats add up to the rounded total, exactly |
| Splits.OtherShareBounds | app/modules/housing_compat/router.py:408-411 | every share but the last is within half a paisa of the mean |
| Splits.LastShareBounds | app/modules/housing_compat/router.py:409-410 | the last share is within (n-1)/2 paise of the mean for a whole-paise total, and n/2 for any total |
| Splits.BaseIs | app/modules/housing_compat/router.py:408 | every share but the last is a quotient of the total's half-paise and the number of flats |
| Splits.LastShareNegativeIff | app/modules/housing_compat/router.py:408-410 | for every total, by the quotient and remainder of its half-paise by two per flat, exactly when the last share is negative |
| Splits.WholeLastShareNegativeIff | app/modules/housing_compat/router.py:408-410 | for whole paise t over n flats the last share is negative exactly when 2(t mod n) >= n and t div n + t mod n + 1 < n |
| Splits.LargeTotalsAreSafe | app/modules/housing_compat/router.py:408-410 | a mean of at least half a paisa for each flat keeps the last share from being negative |
| Splits.NegativeLastShare | app/modules/housing_compat/router.py:408-410 | five paise over ten flats give nine shares of 1 and a last share of -4 |
| Splits.WeightedSharesNearTotal | app/modules/housing_compat/router.py:406-407 | shares by area add up to the total within half a paisa per flat |
| Splits.WaterNearTotalIff | app/modules/housing_compat/router.py:802-873 | water charges add up to the water total within half a paisa per resident exactly when someone is resident or there is nothing to charge |
| Bills.CreditTotalIsPositivePart | app/modules/housing_compat/router.py:990-1011 | the posted debit is the sum of the positive parts of the components |
| Bills.NothingDroppedIff | app/modules/housing_compat/router.py:990-1011 | the debit equals the sum of all components exactly when none is negative |
| Bills.PostingShape | app/modules/housing_compat/router.py:1013-1019 | one debit on 13001 for the credit total and one credit per positive component |
| Bills.PostingNet | app/modules/housing_compat/router.py:1013-1019 | the posting lines put exactly the bill's net on every account |
| Bills.BillAccepted | app/modules/housing_compat/router.py:1004-1035 | a bill with a positive component whose accounts exist always yields lines that validation accepts |
| Bills.ReversalAccepted | app/modules/housing_compat/router.py:1054-1077 | the reversal of any stored entry is accepted |
| Bills.ReversalNet | app/modules/housing_compat/router.py:1070-1077 | an entry and its reversal cancel on every account |
| BillEntries.BillNetByCode | app/modules/housing_compat/router.py:977-1019 | what a posted bill puts on each account code: the positive components as credits on their own codes, their sum as a debit on 13001 |
| BillEntries.MonthEndLaws | app/modules/housing_compat/router.py:610-612 | the entry days are the last days of the months of the calendar |
| BillEntries.MonthEndExamples | app/modules/housing_compat/router.py:610-612 | 30 April 2025 and 29 February 2024 as day numbers |
| BillEntries.PostBillStores | app/modules/housing_compat/router.py:1001-1038 | the entry of a bill is dated on the last day of its month and puts its net on every account |
| BillEntries.PostBillMarks | app/modules/housing_compat/router.py:1701-1722 | posting marks its own bill against an entry under its key, and no other bill |
| BillEntries.PostBillFails | app/modules/housing_compat/router.py:1003-1012 | a bill is not posted exactly when it has no positive component or lacks an account |
| BillEntries.MissingCodesAre | app/modules/housing_compat/router.py:955-976 | a code is missing exactly when the bill needs it and no account of the scope has it |
| BillEntries.ReverseStores | app/modules/housing_compat/router.py:1041-1098 | a reversal entry is dated on the last day of the bill's month under the reversal key; the bill ends reversed and unposted |
| BillEntries.ReverseTakesOff | app/modules/housing_compat/router.py:1070-1094 | and takes the bill's net off every account |
| BillEntries.ReverseMissing | app/modules/housing_compat/router.py:1054-1068 | a posted bill whose journal has no lines in the scope cannot be reversed, and nothing changes |
| BillEntries.ReverseUnposted | app/modules/housing_compat/router.py:1818-1842 | reversing an unposted bill only marks it |
| BillEntries.ChargedIs | app/modules/housing_compat/router.py:1776-1784 | a charge raises the extra amount and the bill's total by the rounded amount |
| BillEntries.GenerateIs | app/modules/housing_compat/router.py:779-788 | generation replaces the bills of its month and year, and none when one of them is posted |
| BillRuns.KeysDiffer | app/modules/housing_compat/router.py:1034-1094 | postings and reversals of all bills have pairwise different keys |
| BillSafety.SourceKeysForeign | app/accounting/service.py:463-467 | keys of source journals are never maintenance keys |
| BillRuns.ConservedIsPosted | app/modules/housing_compat/router.py:1685-1722 | when nothing is cut off, agreement is about exactly the bills marked posted |
| BillSafety.PostBillKeeps | app/modules/housing_compat/router.py:1701-1722 | posting a bill, cut off before or not, keeps the bill collection and the ledger in agreement |
| BillSafety.MarkKeeps | app/modules/housing_compat/router.py:1710-1722 | the bill update of a posting keeps agreement whenever it comes, even on a bill reversed since the commit |
| BillSafety.RepeatSettles | app/modules/housing_compat/router.py:1701-1722 | repeating a cut posting marks the bill against its own entry and writes nothing |
| BillSafety.RepeatNeutral | app/modules/housing_compat/router.py:1701-1722 | whatever was done to a cut bill since, repeating its posting neither repairs nor breaks agreement |
| BillSafety.RepeatAfterCut | app/modules/housing_compat/router.py:1701-1722 | an immediate repeat has the outcome of one uncut posting: one entry per bill |
| BillSafety.BillReverses | app/modules/housing_compat/router.py:1041-1098 | reversing a posted bill always succeeds and appends the swapped lines of its own entry |
| BillSafety.ReverseKeeps | app/modules/housing_compat/router.py:1818-1842 | reversing anything but a cut posting keeps agreement |
| BillSafety.CutReverseKeeps | app/modules/housing_compat/router.py:1819-1828 | so does a reversal cut off before the bill update |
| BillSafety.RepeatReversalAfterCut | app/modules/housing_compat/router.py:1818-1842 | repeating a cut reversal has the outcome of one uncut reversal |
| BillSafety.GenerateKeeps | app/modules/housing_compat/router.py:779-788 | replacing a month without posted or cut bills keeps agreement |
| BillSafety.ChargeKeeps | app/modules/housing_compat/router.py:1756-1784 | a charge on an unposted bill keeps agreement, unless it shows on a cut one |
| BillSafety.LedgerStepKeeps | app/accounting/service.py:399-460 | no other accounting operation disturbs agreement, unless it is a direct journal under a maintenance key |
| BillBreaks.EntryFitsIff | app/accounting/service.py:411-460 | an entry under a free maintenance key, from wherever it comes, keeps agreement exactly when on every account it does what the owner of the key would do, or nothing when the key is no bill's |
| BillBreaks.LedgerStepIff | app/accounting/router.py:358-380 | any accounting operation, direct journals under maintenance keys included, keeps agreement exactly when it writes no entry that belies its key |
| BillBreaks.CommitKeeps | app/modules/housing_compat/router.py:1686-1709 | a commit from a copy keeps agreement when it writes nothing or the bill is still open with the components the copy shows |
| BillBreaks.CommitBreaks | app/modules/housing_compat/router.py:1686-1709 | a payable copy committed under a free key after its bill was replaced, reversed or visibly charged leaves an entry that no bill stands for |
| BillBreaks.CutPostKeeps | app/modules/housing_compat/router.py:1702-1710 | a posting cut off between the journal commit and the bill update keeps agreement |
| BillBreaks.ReverseBreaks | app/modules/housing_compat/router.py:1818-1842 | reversing a cut posting marks it without a reversal entry, so the stores disagree |
| BillBreaks.GenerateBreaks | app/modules/housing_compat/router.py:779-788 | generating the month of a cut posting orphans its entry |
| BillBreaks.ChargeBreaks | app/modules/housing_compat/router.py:1756-1784 | a charge that makes the maintenance part of a cut bill positive is not in its entry |
| BillConservation.StepConservesIff | app/modules/housing_compat/router.py:1685-1722 | a step keeps the stores in agreement exactly when it is none of the three harms to a cut posting, no commit of an outdated copy and no direct journal that belies its maintenance key |
| BillConservation.RunConservesIff | app/modules/housing_compat/router.py:1685-1722 | along any run, postings split and interleaved at will, the stores agree throughout exactly when no step is one of those |
| BillConservation.RunConserves | app/modules/housing_compat/router.py:1685-1722 | on every run of whole calls each account's balance from maintenance journals is the signed sum of the positive components of the posted bills |
| BillConservation.StepSettledIff | app/modules/housing_compat/router.py:1685-1722 | a step leaves exactly the bills with standing entries marked posted, unless it commits or reverses without marking, marks a bill reversed since the commit, or is a direct journal under an open bill's key |
| BillConservation.RunSettledIff | app/modules/housing_compat/router.py:1685-1722 | along any run agreement and posted flags are right throughout exactly when no step breaks or misleads |
| BillConservation.CopiesAge | app/modules/housing_compat/router.py:1686-1697 | whatever happens after a call has read a bill, the bill differs from the copy at most by extra charges |
| BillConservation.CommitLeavesEntry | app/modules/housing_compat/router.py:1702-1710 | a commit that succeeds leaves its entry under the bill's key, for the update to point at |
| BillConservation.CommitThenMarkIsPost | app/modules/housing_compat/router.py:1701-1722 | with nothing in between, commit and bill update are one posting |
| BillConservation.LateChargeLostIff | app/modules/housing_compat/router.py:1756-1784 | cut, charge, repeat: the stores agree on every account exactly when the charge leaves the maintenance part at or below zero |
| ActiveBills.StepOneActiveIff | app/modules/housing_compat/router.py:1886-1968 | a step keeps one active bill per flat and month exactly when it does not regenerate beside an unreversed bill of the month or mark a reversed bill beside another active one |
| ActiveBills.RunOneActiveIff | app/modules/housing_compat/router.py:1886-1968 | along any run every flat has at most one active bill per month throughout exactly when no step does either |
| ActiveBills.OneEntryPerFlat | app/modules/housing_compat/router.py:1685-1722 | with one active bill per flat and month at most one entry stands for each |
| ActiveBills.RegeneratedPostsTwice | app/modules/housing_compat/router.py:1886-1968 | a bill regenerated beside a booked one posts too: two entries stand for the flat and month and the receivable account is debited again |
| ActiveBills.SecondBill | app/modules/housing_compat/router.py:1934-1968 | one flat, one bill and one regeneration already give two active bills |
| BillGeneration.FundConserved | app/modules/housing_compat/router.py:875-883 | over a whole bill run a fund split equally is billed exactly, one split by area within half a paisa per flat |
| BillGeneration.WaterConservedIff | app/modules/housing_compat/router.py:869-873 | over a whole bill run water is billed within half a paisa per resident exactly when someone is resident or there is nothing to bill |
| BillGeneration.MaintenanceBilled | app/modules/housing_compat/router.py:872 | every flat is charged its own area at the rate to the nearest paisa, and the run the whole area within half a paisa per flat |
| BillGeneration.WaterBilled | app/modules/housing_compat/router.py:873 | every flat pays its own residents' part of the water total within half a paisa for each |
| BillGeneration.FundsBilled | app/modules/housing_compat/router.py:875-883 | each of the five funds is shared out by its own total and method, flat by flat |
| BillGeneration.BillIs | app/modules/housing_compat/router.py:884-908 | whose bill it is, for which month, open and without extra charges, totalling its components |
| BillGeneration.RegeneratedIs | app/modules/housing_compat/router.py:1896-1932 | each regenerated component is its override or the previous bill's own; extra charges are not carried over |
| BillGeneration.GeneratedTotal | app/modules/housing_compat/router.py:884 | a generated total is the sum of the components, and is what posting debits exactly when none is negative |
| BillPosting.PostAllKeeps | app/modules/housing_compat/router.py:1685-1722 | posting a month keeps conservation even when it stops at an error |
| BillPosting.PostAllPosts | app/modules/housing_compat/router.py:1685-1728 | a month that posts without error leaves no selected bill unposted |
| BillPosting.SelectedIff | app/modules/housing_compat/router.py:1685-1695 | post-bills takes exactly the unposted, unreversed bills of the month and year |
| BillPosting.PassEffect | app/modules/housing_compat/router.py:1699-1722 | a pass marks bills in order up to the first that fails, whose failure it reports, and leaves the rest |
| BillPosting.PassPostsMonth | app/modules/housing_compat/router.py:1685-1722 | only unposted, unreversed bills of the month and year are touched; a successful call posts all of them under their keys |
| BillingService.Maintenance.constructor | app/modules/housing_compat/router.py:577-581 | no bills over a ledger without maintenance journals agree |
| BillingService.Maintenance.GenerateBills | app/modules/housing_compat/router.py:760-952 | refused exactly for a bad month, no flats, or a posted bill in the month; otherwise the month's bills are replaced, and the stores still agree exactly when no posting of the month was cut, and over different flats one active bill per flat and month remains one |
| BillingService.Maintenance.BuildBills | app/modules/housing_compat/router.py:869-939 | one bill per flat in order, with the shares of that flat |
| BillingService.Maintenance.PostBills | app/modules/housing_compat/router.py:1665-1728 | posts exactly the open bills of the month and year, in order until the first error; bills of other months, reversed and posted ones stay; on success every open one is marked against an entry under its key |
| BillingService.Maintenance.PostLoop | app/modules/housing_compat/router.py:1699-1722 | the loop performs the specified sequence of postings |
| BillingService.Maintenance.PostOne | app/modules/housing_compat/router.py:993-1038 | journal first, then the bill update |
| BillingService.Maintenance.AddExtraCharge | app/modules/housing_compat/router.py:1731-1789 | raises the amount of the unposted bill with the id and only that one; each refusal has its exact cause |
| BillingService.Maintenance.Reverse | app/modules/housing_compat/router.py:1792-1864 | reverses the bill with the id; an empty id or short reason and a missing bill are reported exactly then and change nothing; agreement survives exactly when the posting was not cut |
| BillingService.Maintenance.ReverseOne | app/modules/housing_compat/router.py:1818-1842 | reversal journal first, then the bill update |
| BillingService.Maintenance.RegenerateBill | app/modules/housing_compat/router.py:1867-1969 | appends a new unposted bill whose components are the overrides or the previous bill's, leaving earlier bills in place; the flat keeps one active bill exactly when it had no unreversed bill of the month |
| QueueModel.RunKeeps | app/modules/legal_compat/sync_worker.py:197-306 | over every interleaving attempts stay within the limit, a job is locked exactly while processing, claims never repeat, and finished jobs never change |
| QueueModel.EffectiveStepFalls | app/modules/legal_compat/sync_worker.py:197-306 | every effective claim, completion, failure, retry or recovery lowers (remaining attempts, running jobs) |
| QueueModel.ClaimsBounded | app/modules/legal_compat/sync_worker.py:218-249 | claims are paid for by attempts, so without enqueues only finitely many can happen |
| QueueModel.OwnershipStepIff | app/modules/legal_compat/sync_worker.py:197-306 | a step breaks the exclusiveness of claims exactly when it releases a job whose claimer is still running |
| QueueModel.OwnershipRunIff | app/modules/legal_compat/sync_worker.py:197-306 | along a run claims stay exclusive throughout exactly when no release takes a running claimer's job; recovering a crashed worker's job is harmless |
| QueueModel.StrandsStepIff | app/modules/legal_compat/sync_worker.py:197-306 | a step leaves a pending job without attempts exactly when a release or a late retry puts back one that has used its last |
| QueueModel.ClaimableRunIff | app/modules/legal_compat/sync_worker.py:197-306 | along a run every pending job stays claimable exactly when no step does that |
| QueueModel.OwnershipWithoutStaleLocks | app/modules/legal_compat/sync_worker.py:252-306 | while no lock goes stale both hold throughout |
| QueueModel.LateCompletion | app/modules/legal_compat/sync_worker.py:252-270 | after a recovery a late worker completes the job another process holds |
| QueueModel.RecoveryStrands | app/modules/legal_compat/sync_worker.py:197-215 | one allowed attempt and one recovery leave a pending job nobody can claim |
| QueueModel.ReleasedIff | app/modules/legal_compat/sync_worker.py:197-215 | a scan releases a job exactly when it and the jobs before it have different queries, none already pending |
| QueueModel.RecoveryStrandsIff | app/modules/legal_compat/sync_worker.py:197-215 | a scan strands a job exactly when that holds and the job has used its last attempt |
| QueueModel.RecoveryOwnershipIff | app/modules/legal_compat/sync_worker.py:197-215 | a scan leaves claims exclusive exactly when that holds for no job whose claimer is still running |
| QueueModel.RecoveryIsRun | app/modules/legal_compat/sync_worker.py:197-215 | an uninterrupted scan is a run of single releases |
| QueueModel.StuckForever | app/modules/legal_compat/service.py:956-1001 | a stranded job is never claimed, never finishes, and keeps any new pending job of its query out |
| JobStates.EnqueueIs | app/modules/legal_compat/service.py:963-1001 | a new pending job without attempts, or none when the query is pending |
| JobStates.ClaimIs | app/modules/legal_compat/sync_worker.py:218-249 | the choice is an oldest due job; the claim locks it with one more attempt and touches no other |
| JobStates.CompletionIs | app/modules/legal_compat/sync_worker.py:252-270 | a processing job ends completed and unlocked; any other is left alone |
| JobStates.FailureIs | app/modules/legal_compat/sync_worker.py:273-306 | a processing job ends failed exactly on its last attempt, and otherwise pending with its retry time unless the index refuses |
| JobStates.ErrorTextIs | app/modules/legal_compat/sync_worker.py:286-300 | an error message is kept in its first 1000 characters, a missing one replaced |
| JobStates.ReleaseIs | app/modules/legal_compat/sync_worker.py:197-215 | a released job had gone stale and is pending and unlocked with its attempts kept |
| JobStates.StepEndsIff | app/modules/legal_compat/sync_worker.py:252-306 | a step ends a job completed exactly when it completes it, and failed exactly when it reports a failure on its last attempt |
| JobStates.EndsHaveCause | app/modules/legal_compat/sync_worker.py:252-306 | over every run completed and failed jobs have such a step behind them |
| SyncWorker.Queue.EnqueueQuery | app/modules/legal_compat/service.py:963-1001 | inserts a pending job unless the query already has one |
| SyncWorker.Queue.RecoverStaleJobs | app/modules/legal_compat/sync_worker.py:197-215 | releases exactly the longest prefix of the scan without an index violation; a released job was locked longer than the timeout and 30 seconds, and without a violation none such is left |
| SyncWorker.Queue.ClaimPendingJob | app/modules/legal_compat/sync_worker.py:218-249 | claims an oldest due job, or none exactly when none is due |
| SyncWorker.Queue.MarkJobCompleted | app/modules/legal_compat/sync_worker.py:252-270 | completes the job if it is still processing, whoever holds it |
| SyncWorker.Queue.MarkJobFailedOrRetry | app/modules/legal_compat/sync_worker.py:273-306 | fails a processing job exactly when the claimed attempt was the last, otherwise puts it back for at least 15 seconds and the delay unless the index forbids it |
| SyncWorker.Queue.ProcessNext | app/modules/legal_compat/sync_worker.py:392-440 | one turn is a claim and a report of the interleaving model |
| SyncWorker.Queue.RunTurns | app/modules/legal_compat/sync_worker.py:392-440 | the claim loop extends the run and its summary counts each claim once |
| SyncWorker.Queue.RunOnce | app/modules/legal_compat/sync_worker.py:361-440 | a pass is a run of the model; the jobs it claimed end completed or failed as their outcomes say, and its completed, failed and claimed counters are what was added to the completed jobs, the failed jobs and the attempts |
| Dedup.BuildClusters | app/services/legal_web_search.py:66-88 | two indices share a cluster exactly when a chain of similar pairs joins them |
| Dedup.Merge | app/services/legal_web_search.py:74-88 | a similar pair's clusters become one and no cluster is split |
| Dedup.Groups | app/services/legal_web_search.py:90-122 | one group per component: its least index first, the others in increasing order |
| Dedup.Representatives | app/modules/legal_compat/router.py:327-337 | one index per component, the least, in increasing order |
| Dedup.ClosedUnderChains | app/services/legal_web_search.py:66-88 | a partition closed under similar pairs is closed under chains |
| Dedup.GroupsPartition | app/services/legal_web_search.py:90-122 | every input index is in exactly one group |
| Dedup.RepresentativesUnique | app/modules/legal_compat/router.py:299-337 | the output is determined by the components, so both implementations keep the same items |
| Dedup.RepresentativesUnlinked | app/modules/legal_compat/router.py:307-325 | no two kept titles are similar in the order they are compared |
| Dedup.TitlesLinkedIff | app/modules/legal_compat/router.py:307-325 | two items are linked exactly when the earlier title against the later one reaches the threshold |
| Dedup.KeptAreUnlike | app/modules/legal_compat/router.py:307-337 | no kept title reaches the threshold with a later kept one |
| Dedup.SimilarIsDropped | app/modules/legal_compat/router.py:307-337 | an item that reaches the threshold with an earlier one is not kept |
| Dedup.PairIff | app/modules/legal_compat/router.py:299-337 | of two items one is kept exactly when they reach the threshold |
| Dedup.DedupIdempotent | app/modules/legal_compat/router.py:299-337 | deduplicating the output at the same threshold returns it unchanged |
| Dedup.DeduplicateByTitle | app/modules/legal_compat/router.py:299-337 | returns the items at the representatives |
| Dedup.DeduplicateResults | app/services/legal_web_search.py:51-122 | returns the first item of each component with the component's other items, in order, as alternative sources |
| Dedup.SamePrimaries | app/modules/legal_compat/router.py:327-337 | on one similarity the router keeps exactly the search service's primary items |
| Tokens.ResolveIdempotentIff | app/core/tenants/context.py:21-46 | resolving an application key twice changes nothing for any key exactly when the default is not an alias of an allowed key |
| Tokens.PathIncreases | app/core/auth/service.py:557-566 | following replaced_by always reaches later tokens, so a family is a simple acyclic path |
| Tokens.PathRevoked | app/core/auth/service.py:557-566 | every token of a family but the newest is revoked |
| Tokens.PathOwner | app/core/auth/service.py:540-550 | user, email, tenant and role are constant along a family, and the application key too when the default is stable |
| Tokens.RotationDriftsIff | app/core/auth/service.py:540-550 | one rotation keeps the application key exactly when the default is stable or the token carries another key |
| Tokens.PathDriftsIff | app/core/auth/service.py:540-566 | every later token of a family has the same subject as an earlier one exactly under that condition on the earlier one |
| Tokens.UnstableDefaultDrifts | app/core/auth/service.py:534-550 | with an aliased default one rotation changes the application key |
| Tokens.OneLiveToken | app/core/auth/service.py:514-566 | an unrevoked token of a family is its newest one |
| Tokens.HasRoot | app/core/auth/service.py:430-440 | every token belongs to the family of some login |
| Tokens.FamiliesDisjoint | app/core/auth/service.py:514-566 | different logins' families share no token |
| Tokens.RunKeeps | app/core/auth/service.py:514-588 | on every run of logins, rotations and logouts the family invariant holds, links are never rewritten and revoked tokens stay revoked |
| Tokens.StepShapes | app/core/auth/service.py:150-566 | a login's token starts a family; a rotation's token directly follows the live, unexpired token presented |
| TokenAnswers.ResolvesAsMeant | app/core/tenants/context.py:28-46 | which application key a request stands for: aliases, allowed keys and the default |
| TokenAnswers.LoginAnswers | app/core/auth/service.py:32-44 | a login stores nothing for an inactive tenant or a foreign application, unless privileged, and else one live token with these fields |
| TokenAnswers.RotateAnswers | app/core/auth/service.py:514-568 | which refusal a rotation gives and what it stores, by conditions on the presented record |
| TokenAnswers.UnknownAndLogout | app/core/auth/service.py:524-588 | an unknown token is refused or ignored; logout revokes the presented one alone |
| TokenRaces.UninterruptedIsRotate | app/core/auth/service.py:514-568 | find, store and retire in a row are exactly one atomic rotation |
| TokenRaces.LoginIsContest | app/core/auth/service.py:430-440 | the token a login has just stored meets the assumptions of the race theorems |
| TokenRaces.LiveIff | app/core/auth/service.py:524-588 | in any interleaving of any number of rotations of one token with rotations of other tokens, logins and logouts, a caller that has stored leaves a live successor exactly when the token was neither retired nor logged out before its find |
| TokenRaces.TwoRotationsForkIff | app/core/auth/service.py:524-588 | two rotations leave two live successors exactly when each finds the token before the other retires it and before any logout of it |
| TokenRaces.LogoutTooLateIff | app/core/auth/service.py:524-588 | a rotation leaves a live successor despite a logout of its token exactly when its find comes before the logout |
| Tokens.TokenStore.IssueTokens | app/core/auth/service.py:430-440 | refuses an inactive tenant or a mismatched key, otherwise stores the new token |
| Tokens.TokenStore.RotateRefreshToken | app/core/auth/service.py:514-568 | refuses unknown, revoked, expired or mismatched tokens (revoking the expired one), otherwise stores the successor and retires the old token |
| Tokens.TokenStore.LogoutRefreshToken | app/core/auth/service.py:571-588 | revokes the presented token and nothing else |
| FlatNumbers.DecodeRoundTrip | app/modules/housing_compat/service.py:267 | with a two-digit index the printed number reads back as block, floor and index, whatever the block is called |
| FlatNumbers.PrintsAsRead | app/modules/housing_compat/service.py:267 | a three-digit index prints like a two-digit index on a later floor |
| FlatNumbers.NumbersAgreeIff | app/modules/housing_compat/service.py:267 | two numbers agree exactly when block and reading agree |
| FlatNumbers.Clash1101 | app/modules/housing_compat/service.py:267 | floor 1 flat 101 and floor 11 flat 1 are both 1101 |
| FlatNumbers.SlotsAre | app/modules/housing_compat/service.py:242-279 | exactly the flats the configuration asks for are generated, each once, by block, floor and index |
| FlatNumbers.FloorGets | app/modules/housing_compat/service.py:242-279 | in stored settings a floor gets its own per-floor entry, or the default beyond the list |
| FlatNumbers.AtMost99 | app/modules/housing_compat/service.py:260-267 | with distinct names and at most 99 flats a floor the numbers are distinct and decode to their flat |
| FlatNumbers.DistinctIff | app/modules/housing_compat/service.py:313-334 | for clamped settings the numbers are distinct exactly when the names are and no floor f with more than 100 flats has a floor 10f+1 |
| FlatNumbers.CutNamesMerge | app/modules/housing_compat/service.py:304 | the ten-character cut and the second strip can make two block names equal |
| FlatNumbers.SavedBlockIs | app/modules/housing_compat/service.py:305-334 | counts are clamped to 1..200, with 1 for what is missing |
| FlatNumbers.SavedCountsAre | app/modules/housing_compat/service.py:314-326 | readable per-floor entries are stored clamped, as many as there are floors |
| FlatNumbers.SavedNameIs | app/modules/housing_compat/service.py:304 | the stored name is the first ten stripped characters, A when blank, a letter by position when missing |
| FlatNumbers.GenerateFlats | app/modules/housing_compat/service.py:242-279 | the nested loops produce the wanted flats in order |
| FlatNumbers.PositiveCounts | app/modules/housing_compat/service.py:250-256 | keeps the positive per-floor counts in order |
| FlatNumbers.ReadBlocks | app/modules/housing_compat/service.py:300-334 | reads, clamps and cuts the payload's blocks, skipping what is not a block |
| FlatNumbers.Society.SaveSettings | app/modules/housing_compat/service.py:282-378 | refuses to clear existing blocks; otherwise succeeds exactly when the new numbers are distinct, and a failed insert leaves a proper prefix of the new flats and none of the old |
| FlatNumbers.Society.InsertMany | app/modules/housing_compat/service.py:356-378 | succeeds exactly on distinct numbers, else stops at the first duplicate |

## Left out

- HTTP routing, request parsing, authentication middleware, sessions and drivers: the stores are fields with their constraints stated.
- Primary keys and foreign-key cascades: ids are table positions.
- Decimal precision, Numeric(15,2) overflow and binary floating point: money is exact, and the 0.0000001 nudge of `_round_money` is exact half-up rounding.
- initialize_default_chart_of_accounts is a sequence of account creations; suggest_canonical_account and the list and detail endpoints only read or rank.
- LedgerService.Ledger.GlSumsByAccount: does not promise the order by account name.
- LedgerService.Ledger.UpsertSourceAccounts: does not return the rows with their mapped flags, which repeat the stored tables.
- LedgerService.Ledger.UpsertCoaMappings: does not return the list of touched mappings, which repeats the stored table.
- LedgerService.Ledger.GetCoaMappingGaps: omits the suggested canonical account of each gap, a heuristic ranking by name.
- The balance sheet's line for current earnings is a separate field of the result instead of one more equity line.
- Descriptions, references and breakdown texts of journals and bills are abbreviated to the parts that identify them.
- BillingService.Maintenance.GenerateBills: takes expense totals, resident counts and the override-or-settings choice of each total as parameters, because they come from other collections.
- BillingService.Maintenance.RegenerateBill: takes the previous bill of the flat and month, which the source picks by its update time, and the water rate as parameters.
- BillConservation.RunConservesIff: assumes that new bill ids are fresh; generate, regenerate, extra charge and the update of a reversal each read and write the bills in one step, so only postings and reversals are split.
- BillSafety.LedgerStepKeeps: leaves out direct journals under a maintenance key, which `BillBreaks.LedgerStepIff` covers exactly.
- BillConservation.RunConserves: is about calls that run in one piece; `BillConservation.RunConservesIff` and `BillConservation.RunSettledIff` cover the others exactly.
- The reversal log collection and the response summaries of the billing endpoints.
- Queue statistics fields, completion timestamps, fetching and ingesting of feeds, and the early returns of enqueueing for a disabled setting or an empty query.
- The rounding of reported similarities to two decimals; the similarity itself is an arbitrary function, evaluated only for the earlier title first.
- JWT and digest internals: tokens and digests are opaque and distinct tokens have distinct digests; the TTL deletion of expired tokens and the tenant status cache.
- Tokens.RunKeeps: takes rotation as one step, because with separate find and update calls the family property fails exactly as `TokenRaces.TwoRotationsForkIff` says.
- TokenRaces.LiveIff: every caller that presents the contested token would be served if it came alone, and nobody presents or logs out a successor during the race.
- Trimming and lower-casing of application keys and upper-casing of block names are part of the input.
- FlatNumbers.DistinctIff: covers every configuration a save can store; stored legacy configurations with more than 200 flats on a floor are covered only by `FlatNumbers.SlotsAre`, `FlatNumbers.AtMost99` and `FlatNumbers.NumbersAgreeIff`.
- Complaints, meetings, messages, assets, onboarding, legal text generation, mail and messaging are not part of this model.
