# TripSplit: verified model of the expense-splitting core

TripSplit is a small React application for recording what a group spends on a
trip and working out who should pay whom. This project models its core in
Dafny and proves properties of the model:

- the balance computation of the balances summary (`calculateBalances`). It
  aggregates every expense into a per-person balance, then runs a greedy
  settlement that walks each debtor over the creditors. The summary figures
  Total Spent, Total Owed and Settled Up are modelled with it;
- the currency-symbol lookup;
- the list rules of the two dialogs:
  - toggling split members;
  - adding and removing roster names;
  - the submit guards and form resets;
- the two dashboards:
  - charging an expense to its trip;
  - re-selecting a trip;
  - adapting stored expenses into the `{paidBy, splitBetween}` shape;
  - forwarding a new expense;
- the itinerary edits of the planning tab, and the ordering and lookups of the
  expense list.

Layout, one module per source file (plus shared modules):

| file | module | models |
|---|---|---|
| wrappers.dfy | `Wrappers` | `Option` |
| seqs.dfy | `Seqs` | `filter`, `includes`, `new Set(...)` iteration order |
| text.dfy | `Text` | `trim`, `split`, `toUpperCase`, `getInitials` |
| types.dfy | `TripData` | the `Trip` and `Expense` records and the dialogs' drafts |
| currency.dfy | `Currency` | `src/lib/currency.ts` |
| balances.dfy | `Balances` | `calculateBalances`: the imperative passes as methods over the `balances` record, specified by functions |
| settlement_facts.dfy | `SettlementFacts` | what the greedy settlement guarantees |
| report_facts.dfy | `ReportFacts` | conservation, mirrored entries, summary figures, worked examples |
| expense_form.dfy | `ExpenseForm` | `CreateExpenseDialog.tsx` |
| trip_form.dfy | `TripForm` | `CreateTripDialog.tsx` |
| dashboard.dfy | `Dashboard` | `TripDashboard.tsx` (in-memory dashboard) |
| dashboard_new.dfy | `DashboardNew` | `TripDashboardNew.tsx` (store-backed dashboard) |
| expense_list.dfy | `ExpenseList` | `ExpenseList.tsx` |
| planning.dfy | `Planning` | `TripPlanning.tsx` |

`calculateBalances` is modelled in the form the code has. `Balances.CalculateBalances`
builds a `map<Person, Balance>` (the JavaScript `Record`) with a loop for each
`forEach` pass:

- `InitialRows` creates the rows;
- `Aggregate` calls `ApplyExpense` once per expense;
- `Settle` calls `PayDebtor` once per debtor, and `PayDebtor` calls
  `OfferCreditor` once per creditor.

Each of these methods is proved against a specification function:

- `Roster` is the de-duplicated roster;
- `Net` is a person's balance after aggregation;
- `Offer`, `Walk`, `Turn`, `Planned` and `Settlement` are the greedy plan as a
  list of payment edges;
- `Report` is the returned rows.

The method's postcondition is `result == Report(...)`. The properties below are
lemmas about those functions. The creditor and debtor groups hold names, so
decrementing a creditor's balance field inside the settlement loop shows in the
returned rows, just as the aliasing of `Object.values` entries does in the code.

Amounts are `real`. The 0.01 tolerance is compared exactly. Dates are integer
keys (`yyyymmdd`). Ids produced by `Date.now()`, amounts produced by `parseFloat`
and "today" are parameters of the operations that use them.

## Model

| member | source | states |
|---|---|---|
| Seqs.Dedup | src/components/BalancesSummary.tsx:57-61 | the `Set` of the roster: a value is listed iff it occurs in the input, and no value is listed twice |
| Seqs.DedupFirstAppearance | src/components/BalancesSummary.tsx:57-61 | the `Set` iterates in order of first appearance in the input |
| ReportFacts.DedupExample | src/components/BalancesSummary.tsx:57-61 | `[a, b, a, a, b]` de-duplicates to `[a, b]` |
| Balances.Payers | src/components/BalancesSummary.tsx:59 | one payer per expense, position by position |
| Balances.SplitMembers | src/components/BalancesSummary.tsx:60 | the flattened splits hold exactly the persons named in some split |
| Balances.Roster | src/components/BalancesSummary.tsx:57-61 | the working roster has no duplicates, contains every participant, payer and split member, and contains nobody else |
| ReportFacts.RosterOrder | src/components/BalancesSummary.tsx:57-61 | roster entries are ordered by their first appearance in participants, then payers, then split members |
| Balances.InitialRows | src/components/BalancesSummary.tsx:64-71 | there is a row exactly for each roster entry, at balance 0 with no payments |
| Balances.ApplyExpense | src/components/BalancesSummary.tsx:74-88 | one expense moves each row's balance by that person's credit less their shares, and changes nothing else in any row |
| Balances.Aggregate | src/components/BalancesSummary.tsx:73-88 | after the pass every row's balance has moved by the person's net over all expenses, and the owes/owedBy lists are untouched |
| Balances.Delta | src/components/BalancesSummary.tsx:74-88 | an expense with an empty split credits only its payer; a person who neither paid nor is in the split is not moved |
| Balances.Net | src/components/BalancesSummary.tsx:73-88 | a person who pays for no expense and is in no split keeps balance 0 |
| Balances.PreBalances | src/components/BalancesSummary.tsx:64-88 | the balances after aggregation are keyed exactly by the roster, and each is the person's net |
| ReportFacts.SharesMakeAmount | src/components/BalancesSummary.tsx:75 | the equal shares of a non-empty split add up to the amount |
| ReportFacts.DebitsTotal | src/components/BalancesSummary.tsx:83-87 | over a roster holding every split entry, the split debits one share per entry in total |
| ReportFacts.DebitsAll | src/components/BalancesSummary.tsx:83-87 | a split made only of `p` debits `p` one share per entry |
| Balances.DebitsNone | src/components/BalancesSummary.tsx:83-87 | a split without `p` does not debit `p` |
| ReportFacts.DeltaTotal | src/components/BalancesSummary.tsx:74-88 | one expense moves nothing in total: the payer's credit equals the split's debits |
| ReportFacts.NetTotal | src/components/BalancesSummary.tsx:74-88 | over any duplicate-free roster covering the expenses, the balances after aggregation sum to zero |
| ReportFacts.Conservation | src/components/BalancesSummary.tsx:57-88 | over the working roster, the balances after aggregation sum to exactly zero |
| ReportFacts.UnsplitExpense | src/components/BalancesSummary.tsx:74-88 | an expense with an empty split credits its payer the whole amount and debits nobody |
| ReportFacts.UnsplitTotal | src/components/BalancesSummary.tsx:57-88 | with one such expense the balances after aggregation sum to its amount, not to zero |
| ReportFacts.SelfPaid | src/components/BalancesSummary.tsx:74-88 | an expense split only to its payer changes nobody's balance |
| Balances.Group | src/components/BalancesSummary.tsx:91-92 | a filtered group holds exactly the persons of the rows passing the creditor (> 0.01) or debtor (< -0.01) test |
| Balances.GroupMembers | src/components/BalancesSummary.tsx:91-92 | a person is in a group iff they are on the roster and their balance after aggregation passes that group's test |
| SettlementFacts.GroupIsKept | src/components/BalancesSummary.tsx:91-92 | filtering the rows is the roster filtered by the test |
| SettlementFacts.KeptOrdered | src/components/BalancesSummary.tsx:91-92 | each group keeps roster order |
| SettlementFacts.OrderedNoDup | src/components/BalancesSummary.tsx:91-92 | a group in strict roster order lists nobody twice |
| SettlementFacts.OfferPayment | src/components/BalancesSummary.tsx:99-106 | an offer either pays nothing or emits one edge of exactly `min(remaining, creditor balance)` above 0.01, and the remainder stays non-negative |
| Balances.OfferFrom | src/components/BalancesSummary.tsx:99-100 | the creditor's balance field, as decremented so far, is the working balance the offer pays against |
| Balances.RecordPayment | src/components/BalancesSummary.tsx:102-106 | pushing the two mirrored entries and decrementing the creditor keeps the rows in step with the emitted edges |
| Balances.OfferCreditor | src/components/BalancesSummary.tsx:98-107 | the creditor callback emits exactly the offer's edge and remainder, and the rows stay in step with all edges so far |
| SettlementFacts.WalkEdges | src/components/BalancesSummary.tsx:98-108 | a debtor's walk only appends edges from that debtor to creditors not yet offered, each above 0.01 |
| SettlementFacts.WalkSent | src/components/BalancesSummary.tsx:96-105 | during a walk the debtor pays at most what it owed at the start, and nobody else pays anything |
| SettlementFacts.WalkReceived | src/components/BalancesSummary.tsx:98-106 | during a walk no creditor is paid past its balance after aggregation, and non-creditors receive nothing |
| SettlementFacts.WalkLength | src/components/BalancesSummary.tsx:98-107 | a walk emits at most one edge per creditor it offers |
| SettlementFacts.WalkIdle | src/components/BalancesSummary.tsx:99-101 | a debtor with at most 0.01 left to pay pays nobody |
| SettlementFacts.PaidGrows | src/components/BalancesSummary.tsx:102-106 | appending positive payments never lowers what anybody pays or receives |
| SettlementFacts.WalkProgress | src/components/BalancesSummary.tsx:96-107 | a walk ends with the debtor's debt paid to within 0.01, or with every creditor it was offered owed at most 0.01 |
| SettlementFacts.WalkOrder | src/components/BalancesSummary.tsx:98-108 | a walk keeps the emitted edges in debtor-major, creditor-minor order |
| Balances.PayDebtor | src/components/BalancesSummary.tsx:95-108 | the debtor callback emits exactly that debtor's turn over the creditors, keeping the rows in step |
| Balances.Settle | src/components/BalancesSummary.tsx:95-109 | the settlement pass emits exactly the planned edges, and the rows match them |
| SettlementFacts.PlannedEdges | src/components/BalancesSummary.tsx:95-109 | after k turns every edge runs from one of the first k debtors to a creditor, above 0.01 |
| SettlementFacts.PlannedReceived | src/components/BalancesSummary.tsx:95-109 | no creditor receives more than its balance after aggregation, and non-creditors receive nothing |
| SettlementFacts.PlannedSent | src/components/BalancesSummary.tsx:95-109 | each debtor pays in total at most its debt, and a debtor without a turn yet pays nothing |
| SettlementFacts.PlannedLength | src/components/BalancesSummary.tsx:95-109 | after k turns at most k edges per creditor have been emitted |
| SettlementFacts.PlannedExtends | src/components/BalancesSummary.tsx:95-109 | each turn only appends to the edges already emitted |
| SettlementFacts.PlannedProgress | src/components/BalancesSummary.tsx:95-109 | after k turns each of those debtors has paid its debt to within 0.01, or every creditor is owed at most 0.01 |
| SettlementFacts.PlannedOrder | src/components/BalancesSummary.tsx:95-109 | edges come out debtor-major, creditor-minor |
| SettlementFacts.SettlementSound | src/components/BalancesSummary.tsx:91-109 | every edge runs from a debtor to a different creditor above 0.01; creditors are never overpaid, debtors never overpay, and nobody else pays or receives; edges are ordered and no debtor pays a creditor twice |
| SettlementFacts.SettlementLength | src/components/BalancesSummary.tsx:91-109 | the settlement emits at most one edge per debtor and creditor pair |
| SettlementFacts.SettlementProgress | src/components/BalancesSummary.tsx:91-109 | every debtor ends within 0.01 of its debt paid, unless at the end every creditor is owed at most 0.01 |
| Balances.Report | src/components/BalancesSummary.tsx:111 | the result has one row per working-roster entry |
| Balances.RowsAreReport | src/components/BalancesSummary.tsx:111 | rows in step with the whole settlement, read in roster order, are the result |
| Balances.CalculateBalances | src/components/BalancesSummary.tsx:53-112 | the method returns exactly the specified rows: roster order, aggregated balances, settlement applied in place |
| ReportFacts.ReportRow | src/components/BalancesSummary.tsx:95-111 | a creditor's row balance ends between 0 and its net; others keep their net. Only debtors owe, at most their debt. Only creditors are owed. Every entry names another person, above 0.01, on the opposite side |
| ReportFacts.OwesAreEdges | src/components/BalancesSummary.tsx:102 | `owes {to: c, amount: x}` on `d` iff the edge d to c of x was emitted |
| ReportFacts.OwedByAreEdges | src/components/BalancesSummary.tsx:103 | `owedBy {from: d, amount: x}` on `c` iff the edge d to c of x was emitted |
| ReportFacts.Mirrored | src/components/BalancesSummary.tsx:102-103 | every `owes` entry has its mirrored `owedBy` entry, and back |
| ReportFacts.ListedTotals | src/components/BalancesSummary.tsx:102-106 | a person's `owes` amounts add up to what they pay, their `owedBy` amounts to what they receive |
| ReportFacts.PayerPaidBack | src/components/BalancesSummary.tsx:53-112 | A pays 100 split [A, B]: B owes A 50, A's field ends at 0 (settled), B's at -50, Total Owed 50 |
| ReportFacts.UnpaidDebtor | src/components/BalancesSummary.tsx:91-109 | a debtor above the tolerance can be left unpaid when each credit is within the tolerance |
| Balances.TotalOwed | src/components/BalancesSummary.tsx:115 | Total Owed is never negative |
| ReportFacts.TotalOwedIsDebt | src/components/BalancesSummary.tsx:115 | Total Owed equals what debtors owed after aggregation (settlement leaves debtors' fields alone and keeps creditors' fields non-negative) |
| ReportFacts.TotalOwedIsCredit | src/components/BalancesSummary.tsx:115 | by conservation, Total Owed also equals what creditors are owed |
| ReportFacts.TotalSpentIsPaid | src/components/BalancesSummary.tsx:168 | Total Spent is what the roster paid between them |
| Balances.TotalSpent | src/components/BalancesSummary.tsx:168 | Total Spent is non-negative for non-negative amounts, and for positive amounts it is positive iff there is an expense |
| Balances.SettledCount | src/components/BalancesSummary.tsx:176 | Settled Up counts at most every row |
| ReportFacts.SettledMonotone | src/components/BalancesSummary.tsx:176 | moving balances towards settled never lowers Settled Up |
| ReportFacts.SettledCountGrows | src/components/BalancesSummary.tsx:176 | Settled Up after settlement is at least the count right after aggregation |
| Text.SplitOn | src/components/BalancesSummary.tsx:38 | `split(' ')` gives one piece more than there are separators, and no piece holds one |
| Text.JoinSplit | src/components/BalancesSummary.tsx:38 | joining the pieces with the separator gives back the name |
| Text.SplitConcat | src/components/BalancesSummary.tsx:38 | splitting at a separator splits the pieces there |
| Text.Upper | src/components/BalancesSummary.tsx:38 | `toUpperCase` keeps the length and maps each character |
| Text.UpperConcat | src/components/BalancesSummary.tsx:38 | upper-casing distributes over concatenation |
| Text.FirstLetters | src/components/BalancesSummary.tsx:38 | at most one letter per word, each the first letter of some non-empty word |
| Text.Initials | src/components/BalancesSummary.tsx:37-39 | at most one letter per word of the name, no space and no lower-case ASCII letter |
| Text.FirstLettersConcat | src/components/BalancesSummary.tsx:38 | first letters of two word lists are those of each, in order |
| Text.InitialsConcat | src/components/BalancesSummary.tsx:37-39 | a two-part name has the initials of each part, in order |
| Text.InitialsOfWord | src/components/ExpenseList.tsx:37-39 | a single word yields its upper-cased first letter; the empty name yields nothing |
| Text.InitialsSkipEmptyWord | src/components/ExpenseList.tsx:37-39 | empty words contribute nothing |
| Currency.CurrencySymbol | src/lib/currency.ts:1-18 | a listed code gives its symbol; any other code comes back unchanged; the result is never a key; non-empty in, non-empty out |
| Currency.CurrencySymbolIdempotent | src/lib/currency.ts:2-17 | looking the symbol up again changes nothing |
| Currency.CurrencySymbolNotInjective | src/lib/currency.ts:7-14 | JPY and CNY share the yen sign; SEK, NOK and DKK share "kr" |
| Currency.CurrencySymbolCaseSensitive | src/lib/currency.ts:17 | "usd" is returned as "usd", "USD" gives "$" |
| Seqs.RemoveAll | src/components/CreateExpenseDialog.tsx:102 | filtering drops every occurrence of the name and keeps every other occurrence count |
| Seqs.RemoveAllConcat | src/components/CreateExpenseDialog.tsx:102 | filtering distributes over concatenation, so the kept names keep their order |
| Seqs.RemoveAllAbsent | src/components/CreateExpenseDialog.tsx:102 | filtering out an absent name changes nothing |
| Seqs.RemoveAllNoDup | src/components/CreateTripDialog.tsx:94 | filtering keeps a roster duplicate-free |
| ExpenseForm.Toggle | src/components/CreateExpenseDialog.tsx:99-104 | an unticked name is appended at the end; a ticked name loses every occurrence, the other names keeping their order; so the name is listed afterwards iff it was not before |
| ExpenseForm.ToggleTwice | src/components/CreateExpenseDialog.tsx:99-104 | ticking an unticked name and unticking it again restores the split |
| ExpenseForm.AmountPerPerson | src/components/CreateExpenseDialog.tsx:107 | the per-person amount times the split size is the amount; an empty split shows 0 |
| ExpenseForm.Submission | src/components/CreateExpenseDialog.tsx:74-92 | an expense is emitted iff trip, title, amount, payer, category and a non-empty split are present, with those fields and an absent description for an empty one |
| ExpenseForm.Form.constructor | src/components/CreateExpenseDialog.tsx:52-58 | the form starts blank with everyone ticked |
| ExpenseForm.Form.ResetForm | src/components/CreateExpenseDialog.tsx:61-69 | clears the text fields, sets today's date and ticks everyone |
| ExpenseForm.Form.ToggleParticipant | src/components/CreateExpenseDialog.tsx:99-104 | only the split changes, by `Toggle` |
| ExpenseForm.Form.Submit | src/components/CreateExpenseDialog.tsx:71-97 | emits exactly the guarded submission; after an emission the form is reset, otherwise nothing changes |
| Text.TrimStart | src/components/CreateTripDialog.tsx:86 | drops exactly the leading white space |
| Text.TrimEnd | src/components/CreateTripDialog.tsx:86 | drops exactly the trailing white space |
| Text.Trim | src/components/CreateTripDialog.tsx:86 | the trimmed name neither starts nor ends with white space |
| Text.TrimCutsOnlySpace | src/components/CreateTripDialog.tsx:86 | the trimmed name is a contiguous piece of the input with only white space cut on either side |
| Text.TrimIdempotent | src/components/CreateTripDialog.tsx:86 | trimming twice is trimming once |
| TripForm.Added | src/components/CreateTripDialog.tsx:85-90 | the roster grows by one, at the end, iff the trimmed name is non-empty and new; otherwise it stays; no duplicate is introduced |
| TripForm.AddedKeepsValid | src/components/CreateTripDialog.tsx:85-90 | adding keeps "You" and keeps the roster duplicate-free |
| TripForm.Removed | src/components/CreateTripDialog.tsx:92-96 | removing "You" does nothing; any other name is filtered out, the rest keeping their order; "You" stays |
| TripForm.RemoveAllNoDupIf | src/components/CreateTripDialog.tsx:94 | the filter keeps a roster duplicate-free |
| TripForm.TripSubmission | src/components/CreateTripDialog.tsx:62-78 | a trip is emitted iff name, destination, both dates and a non-empty roster are present, carrying exactly those fields |
| TripForm.SubmitNeedsOnlyFields | src/components/CreateTripDialog.tsx:62-64 | since "You" is always listed, the roster check never fires |
| TripForm.Form.constructor | src/components/CreateTripDialog.tsx:40-47 | a fresh form is blank: roster ["You"], currency "USD" |
| TripForm.Form.ResetForm | src/components/CreateTripDialog.tsx:49-57 | resetting leaves the blank form |
| TripForm.Form.AddParticipant | src/components/CreateTripDialog.tsx:85-90 | the roster becomes `Added` of the trimmed input; the input clears only when a name was added; other fields stay |
| TripForm.Form.RemoveParticipant | src/components/CreateTripDialog.tsx:92-96 | the roster becomes `Removed`; other fields stay; "You" stays listed |
| TripForm.Form.Submit | src/components/CreateTripDialog.tsx:59-83 | emits exactly the guarded submission, which lists "You"; then the form is blank; without emission nothing changes |
| Dashboard.NewTrip | src/components/TripDashboard.tsx:102-107 | the new trip carries the dialog's fields, the given id and a zero total |
| Dashboard.NewExpense | src/components/TripDashboard.tsx:112-116 | the new expense carries the dialog's fields and the given id |
| Dashboard.ForTrip | src/components/TripDashboard.tsx:100 | exactly the expenses of the selected trip; none when nothing is selected |
| Dashboard.ForTripConcat | src/components/TripDashboard.tsx:100 | the filter keeps the original order |
| Dashboard.Charged | src/components/TripDashboard.tsx:120-128 | charging keeps the number of trips |
| Dashboard.ChargedAt | src/components/TripDashboard.tsx:120-128 | the trip with the id gets the amount added to its total; every other trip is unchanged; ids are kept |
| Dashboard.ChargedTotalsRepeated | src/components/TripDashboard.tsx:120-128 | the totals grow by the amount once per trip carrying the id |
| Dashboard.ChargedTotals | src/components/TripDashboard.tsx:120-128 | the totals grow by amount times the number of trips carrying the id |
| Dashboard.ChargedNoMatch | src/components/TripDashboard.tsx:120-128 | with no matching trip the list is unchanged |
| Dashboard.MatchesCharged | src/components/TripDashboard.tsx:120-130 | charging keeps the number of trips carrying the id |
| Dashboard.FindTrip | src/components/TripDashboard.tsx:130 | `find` gives the first trip with the id, or nothing iff none carries it |
| Dashboard.Reselected | src/components/TripDashboard.tsx:130 | with no match the selection stays; otherwise the new selection is the charged trip with the id |
| Dashboard.PerPerson | src/components/TripDashboard.tsx:240 | the per-person figure times the head count is the total; no finite figure without participants |
| Dashboard.Dashboard.constructor | src/components/TripDashboard.tsx:94-96 | starts on the seed trips and expenses with the first trip selected |
| Dashboard.Dashboard.SelectedTripExpenses | src/components/TripDashboard.tsx:100 | exactly the expenses of the selected trip |
| Dashboard.Dashboard.AddTrip | src/components/TripDashboard.tsx:102-110 | appends the new trip with total 0 and selects it; expenses unchanged |
| Dashboard.Dashboard.AddExpense | src/components/TripDashboard.tsx:112-131 | appends the expense, charges its trip, reselects; the selected trip's list grows by exactly the new expense |
| DashboardNew.FindParticipant | src/components/TripDashboardNew.tsx:104 | the first participant with the id, or nothing iff none has it |
| DashboardNew.PayerName | src/components/TripDashboardNew.tsx:104-110 | a matching participant's non-empty name, otherwise "Unknown"; never empty |
| DashboardNew.Names | src/components/TripDashboardNew.tsx:118 | the participant names in roster order |
| DashboardNew.Format | src/components/TripDashboardNew.tsx:103-115 | id, trip, amount and category are kept; the description is both title and description; the payer name is never empty; the split is the participant names in order, empty without participants |
| DashboardNew.FormattedExpenses | src/components/TripDashboardNew.tsx:103-116 | one adapted expense per stored row in order: description as title and description, payer resolved, split over everyone |
| DashboardNew.FormattedSplits | src/components/TripDashboardNew.tsx:111 | with participants, every adapted split is the whole roster, hence non-empty |
| DashboardNew.UnmatchedPayerIsUnknown | src/components/TripDashboardNew.tsx:104-110 | an unmatched payer id is shown as "Unknown" |
| DashboardNew.UnknownPayerInRoster | src/components/TripDashboardNew.tsx:110 | such an expense brings an extra "Unknown" person into the balance roster |
| DashboardNew.FirstOther | src/components/TripDashboardNew.tsx:61 | the first trip with a different id, or nothing iff all share the id |
| DashboardNew.PerPerson | src/components/TripDashboardNew.tsx:222 | total divided by the head count, and the whole total with nobody; never a division by zero |
| DashboardNew.Forwarded | src/components/TripDashboardNew.tsx:89-96 | tripId, title, amount, paidBy, category and description are passed on unchanged |
| DashboardNew.ForwardedDropsSplitAndDate | src/components/TripDashboardNew.tsx:79-96 | the split and the date do not reach the store |
| DashboardNew.Selection.constructor | src/components/TripDashboardNew.tsx:15 | nothing is selected at first |
| DashboardNew.Selection.HandleTripSelect | src/components/TripDashboardNew.tsx:54-56 | selects the given trip |
| DashboardNew.Selection.HandleTripDelete | src/components/TripDashboardNew.tsx:58-63 | deleting the selected trip selects the first other trip of the old list or nothing; otherwise the selection stays; it never names the deleted id |
| DashboardNew.Selection.HandleAddTrip | src/components/TripDashboardNew.tsx:65-77 | a created trip is selected; a failed creation keeps the selection |
| ExpenseList.Insert | src/components/ExpenseList.tsx:42 | inserting into a newest-first list adds exactly that entry and keeps it newest first |
| ExpenseList.SortedByDate | src/components/ExpenseList.tsx:42 | the sorted copy is a permutation of the input, newest first |
| ExpenseList.SortedByDateKeepsSorted | src/components/ExpenseList.tsx:42 | an already sorted list comes back as it is |
| ExpenseList.SortedByDateStable | src/components/ExpenseList.tsx:42 | entries of equal date keep their input order |
| ExpenseList.Render | src/components/ExpenseList.tsx:41-56 | the empty state iff there are no expenses; otherwise every expense shown once, newest first |
| ExpenseList.CategoryColor | src/components/ExpenseList.tsx:25-35 | a known category's class, the "Other" class for any other string |
| ExpenseList.PerPerson | src/components/ExpenseList.tsx:83 | the per-person figure times the split size is the amount; no finite figure for an empty split |
| Planning.Icon | src/components/TripPlanning.tsx:133-141 | every type's icon is one code point, possibly followed by the emoji presentation selector |
| Planning.Color | src/components/TripPlanning.tsx:143-151 | every type has a `bg-` class followed by ` text-white` |
| Planning.IconAndColorDistinct | src/components/TripPlanning.tsx:133-151 | different types get different icons and classes |
| Planning.NewActivity | src/components/TripPlanning.tsx:160-168 | the placeholder is an `'activity'`-type entry without cost whose id is `activity-` followed by the timestamp |
| Planning.NewActivityIds | src/components/TripPlanning.tsx:162 | placeholders made at different times have different ids |
| Planning.WithoutId | src/components/TripPlanning.tsx:181 | exactly the activities with another id remain |
| Planning.WithoutIdConcat | src/components/TripPlanning.tsx:181 | the remaining activities keep their order |
| Planning.WithoutAbsentId | src/components/TripPlanning.tsx:181 | an absent id removes nothing |
| Planning.WithActivity | src/components/TripPlanning.tsx:171-175 | the day with the id gets the activity appended; others unchanged; number of days kept |
| Planning.WithoutActivity | src/components/TripPlanning.tsx:179-183 | the day with the id loses that activity id; others unchanged; number of days kept |
| Planning.UnknownDay | src/components/TripPlanning.tsx:171-183 | an unknown day id leaves the itinerary unchanged under both edits |
| Planning.AddThenRemove | src/components/TripPlanning.tsx:160-184 | removing the placeholder just added restores the itinerary |
| Planning.MaxDay | src/components/TripPlanning.tsx:187 | the largest day number, attained by some day |
| Planning.WithDay | src/components/TripPlanning.tsx:186-198 | one empty day appended, numbered above every existing day |
| Planning.WithDayDistinct | src/components/TripPlanning.tsx:186-198 | adding a day keeps day numbers distinct |
| Planning.SightCount | src/components/TripPlanning.tsx:226 | a day's count is at most its number of activities, and zero iff none has type `'activity'` |
| Planning.ActivityCount | src/components/TripPlanning.tsx:226 | the Activities stat is zero iff no day holds an entry of type `'activity'` |
| Planning.SightCountConcat | src/components/TripPlanning.tsx:226 | the per-day count adds up over concatenation |
| Planning.ActivityCountWithActivity | src/components/TripPlanning.tsx:160-176 | adding the placeholder raises the Activities stat by one per day carrying the id |
| Planning.ActivityCountWithDay | src/components/TripPlanning.tsx:186-198 | adding a day leaves the Activities stat unchanged |
| Planning.Planner.constructor | src/components/TripPlanning.tsx:154 | starts on the seed itinerary |
| Planning.Planner.AddActivity | src/components/TripPlanning.tsx:160-176 | the itinerary becomes `WithActivity` of the placeholder |
| Planning.Planner.RemoveActivity | src/components/TripPlanning.tsx:178-184 | the itinerary becomes `WithoutActivity` |
| Planning.Planner.AddDay | src/components/TripPlanning.tsx:186-199 | the itinerary becomes `WithDay`; it stays non-empty |

## Notes on the code's behaviour


- Settlement decrements each creditor's `balance` field in place
  (src/components/BalancesSummary.tsx:106), and `Object.values` returns those
  same objects. A fully paid creditor therefore ends at balance 0, is counted
  as Settled Up, and is not counted in Total Owed. The balance is not kept on a
  private copy.
- The currency fallback returns the code exactly as given. It is not
  upper-cased.
- An expense with an empty split reaches `calculateBalances`. The expense form
  refuses one, but the store-backed dashboard builds every split from the
  trip's participants (src/components/TripDashboardNew.tsx:111), so a trip
  without participants gives `splitBetween: []`, and those expenses go to the
  balances summary. The inner `forEach` then visits nothing: the payer is
  credited the whole amount, nobody is debited, and the share is never used
  (`Balances.Delta`, `ReportFacts.UnsplitExpense`). The balances then no
  longer sum to zero (`ReportFacts.UnsplitTotal`). The model computes this
  case as the code does; only the conservation lemmas (`NetTotal`,
  `Conservation`, `TotalOwedIsCredit`) require every split to be non-empty.
- Settlement does not always clear every debtor. Creditors within the
  tolerance are skipped, so a debtor can keep a debt above it (`UnpaidDebtor`).

## Left out

- Text.Trim: its own postcondition states only that no white space is left at either end; `Text.TrimCutsOnlySpace` states the rest (only white space was cut, contiguously).
- Dashboard.Charged: its own postcondition states only the length; `Dashboard.ChargedAt` states the trip-by-trip update.
- Text.UpperChar: upper-cases ASCII letters only. Full Unicode case mapping is not modelled.
- Text.Initials: a Dafny `char` is a Unicode scalar value, while JavaScript's `n[0]` takes one UTF-16 code unit. For a word starting with a character outside the Basic Multilingual Plane (an emoji, say) the code keeps half a surrogate pair and the model the whole character.
- Floating point: amounts are exact reals. IEEE rounding drift, `toFixed(2)` formatting, and the non-finite values of JavaScript division are not modelled. `Option` stands for a non-finite per-person figure.
- `parseFloat`, `Date.now()`, `new Date()`, `toISOString`, `toLocaleDateString`: their results are parameters, and dates are integer keys. As a result, `parseFloat` of malformed text (NaN) is not modelled.
- The trip length and nights computations (src/components/TripPlanning.tsx:157) and `addDay`'s date arithmetic: date arithmetic is not modelled. The new day's date is a parameter.
- `isSubmitting`, the simulated one-second waits and `onOpenChange`: UI timing with no effect on the data.
- The JSX input setters (`setTitle`, `setCurrency`, ...): plain field assignments; the fields are the classes' mutable fields.
- Component props are constants of the classes, so a prop change after mounting is not followed (`useState` ignores it too).
- The store-backed dashboard's effects (src/components/TripDashboardNew.tsx:33-52), including selecting the first trip once trips load: they react to network fetches, which are not modelled.
- Supabase calls (src/hooks/useTrips.ts), `sendPaymentRequest`, the WhatsApp link, toasts and the e-mail edge function: network and browser I/O.
- The Suggested Settlements list (src/components/BalancesSummary.tsx:273-302) is display of the `owes` entries, whose content and order `ReportFacts.OwesAreEdges` and `SettlementFacts.PlannedOrder` describe.
- The accommodations tab and its seed data: display-only.
- `Object.values` key order: taken to be insertion (roster) order, which holds for names that are not integer-like. Prototype keys in the currency table are not modelled.
- The dates of the seed data are integer keys (`yyyymmdd`).
