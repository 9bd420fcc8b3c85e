# Points ledger of a LINE fortune-telling service, in Dafny

This project models the points ledger of a LINE fortune-telling web app.
Users buy points, spend them on chats with fortune tellers, and lose
unused purchases when they expire. Administrators adjust, list and report
on balances.

A user row carries a balance, a total purchased, a total used and a
status. A ledger row carries a type, an amount, the balance before and
after it, an optional expiry instant, and an expired flag.

How the model is built:

- **The store.** The database is `Ledger.Store`, a class holding a map of
  users, a sequence of ledger rows and a row-id counter. `View()` returns
  its value, a `Ledger.Db`.
- **Routes.** Every server route that changes the store is a method with
  `modifies store`. Its `ensures` ties the reply and the new store to a
  pure transition function of the old store. That function carries the
  error cases, the row appended and the counter rules.
- **Invariants.** Lemmas prove what the transition functions preserve:
  - `Consistent`: every balance is the sum of the user's row amounts;
  - `NonNegative`: no balance is below zero.
- **Read-only routes.** The GET routes, the statistics route and the query
  helpers are functions on the store value.
- **Rate limiter.** The middleware's module-level map is the field of the
  class `Middleware.RateLimiter`.
- **Client pages.** The two admin pages and the chat page keep React state.
  Each event handler is a function from one page state to the next.
- **Webhook.** The LINE webhook handles its events in a loop. The replies
  it would send are collected in an outbox.

What the model takes as inputs:

- Time is integer milliseconds.
- The calendar values a route reads from `Date` are parameters: local
  midnight, one month ago, one year ago.
- Date-to-text renderings are parameters (`formatDate`, `stamp`).
- `Math.random` is a parameter: the reply index `pick` and the
  cleanup draw `runCleanup`.
- Decoded tokens are a parameter (`Option<Principal>`; `None` means no
  cookie or header).
- The HMAC digest is a function parameter `hmac`.
- The set of rows whose database write throws is a parameter (`failing`).

Three behaviours of the code look unintended. The model keeps them as written:

- The expiration sweep clamps the balance at zero but records the
  unclamped amount. Its row can therefore break `balanceAfter =
  balanceBefore + amount` and the replay invariant (`ClampBreaksReplay`).
- The generic mutator has no floor check. A large usage takes a balance
  below zero (`ApplyTransactionCanGoNegative`).
- The user-facing POST lets a signed-in user post a PURCHASE for
  themselves (`PostLetsUserSelfCredit`).

## Model

| member | source | states |
|---|---|---|
| Ledger.TxTypeName | src/app/api/transactions/route.ts:21-29 | the wire name of a row type parses back to that type |
| Ledger.AmountSumAppend | src/lib/db-queries.ts:69-76 | appending a row adds its amount to its own user's replay sum only |
| Ledger.Store.constructor | src/lib/db-queries.ts:43-93 | a store starts with the given value |
| Ledger.Store.CreateRow | src/lib/db-queries.ts:69-76 | `transaction.create` appends exactly the new row, advances the id counter and leaves the users alone |
| Wrappers.OrElse | src/middleware.ts:42-45 | JavaScript's logical or on optional strings: truthy exactly when one operand is; the first operand when it is truthy, and the second otherwise |
| Numbers.Max0 | src/app/api/points/check-expiration/route.ts:43 | `Math.max(0, x)` is never negative and is `x` when `x >= 0` |
| Numbers.CeilDiv | src/middleware.ts:63 | `Math.ceil(a / b)` for `b > 0`: the least `q` with `q * b >= a` |
| Text.NatToString | src/app/chat/page.tsx:127 | decimal rendering of a number: non-empty digits |
| Text.DigitsValueOfNatToString | src/app/chat/page.tsx:127 | the rendered digits read back as the number |
| Text.TextLessTrichotomy | src/app/admin/users/page.tsx:218-220 | JavaScript string `<` is a strict total order: exactly one of `a < b`, `a == b`, `b < a` |
| Text.TextLessTransitive | src/app/admin/users/page.tsx:218-220 | string `<` is transitive |
| Text.TrimEmptyIffBlank | src/app/admin/users/page.tsx:246 | `s.trim()` is empty exactly when every character of `s` is white space |
| Text.ParseIntOr | src/app/api/transactions/route.ts:19-20 | `parseInt` of a parameter or its default: the default when the parameter is absent or empty, else the leading decimal digits' value |
| Sorting.SortWith | src/app/admin/users/page.tsx:193-222 | a comparator sort under a total preorder returns a permutation of its input in which every earlier element is before-or-tied with every later one |
| Sorting.SortBy | src/lib/db-queries.ts:157-159 | ordering by an integer key returns a permutation sorted ascending or descending as asked |
| Seqs.Filter | src/app/admin/users/page.tsx:352-364 | `Array.prototype.filter`: no longer than its input; every kept element is in the input and meets the test; every element that meets the test is kept |
| Seqs.PositionsPass | src/app/admin/users/page.tsx:352-364 | the positions listed for a test hold elements meeting it |
| Seqs.PositionsIncrease | src/app/admin/users/page.tsx:352-364 | the listed positions increase strictly |
| Seqs.PositionsComplete | src/app/admin/users/page.tsx:352-364 | no position whose element meets the test is missing from the list |
| Seqs.FilterInOrder | src/app/admin/users/page.tsx:352-364 | with the three above: `filter` keeps exactly the passing elements, in their order, element `k` being the one at the `k`-th passing position |
| Seqs.FilterMultiset | src/app/admin/users/page.tsx:352-364 | `filter` keeps each passing value as often as it occurs and drops every other value |
| Seqs.FilterSameTest | src/app/admin/points/page.tsx:189-201 | two tests that agree on every element filter alike |
| Seqs.CountSplit | src/app/admin/users/page.tsx:352-364 | the elements meeting a test plus those failing it are all the elements |
| Pagination.JsSlice | src/app/admin/points/page.tsx:184-186 | `Array.prototype.slice` with negative bounds counted from the end and clamping |
| Pagination.PageSlice | src/app/admin/points/page.tsx:184-186 | page `n` holds the elements from index `(n-1)*perPage` on, at most `perPage` of them, and is empty past the end |
| Pagination.PageStart | src/app/admin/points/page.tsx:184-186 | page `n` starts one page before where it ends: `start + perPage == n * perPage` |
| Pagination.PageSliceCovers | src/app/admin/points/page.tsx:184-186 | every row is on a page: row `i` is entry `i % perPage` of page `i / perPage + 1` |
| Pagination.PageWindowShape | src/app/admin/points/page.tsx:518-533 | the button row holds `min(5, totalPages)` consecutive page numbers within `1..totalPages` and includes any existing current page |
| Pagination.PreviousPage | src/app/admin/points/page.tsx:507 | the previous button steps back one page from any page after 1, and gives page 1 from page 1 or below |
| Pagination.NextPageReachesZero | src/app/admin/points/page.tsx:546 | as written, Next from page 1 with zero pages moves to page 0, which shows no row and lights no button |
| Pagination.NextPage | src/app/admin/points/page.tsx:546 | corrected Next: forward one page, never past the last page, never below page 1, and page 1 when there are no pages |
| DbQueries.Credit | src/lib/db-queries.ts:77-87 | the user row after a write: balance plus amount; `totalPurchased` grows by the amount only for PURCHASE; `totalUsed` grows by its absolute value only for USAGE; all else unchanged |
| DbQueries.ApplyTransaction | src/lib/db-queries.ts:54-92 | no write for a missing user; otherwise one row is appended with `balanceAfter = balanceBefore + amount`, and the user's balance becomes that `balanceAfter` |
| DbQueries.ApplyTransactionKeepsConsistent | src/lib/db-queries.ts:65-88 | the mutator keeps every balance equal to the replay of that user's rows |
| DbQueries.ApplyTransactionCanGoNegative | src/lib/db-queries.ts:65 | with no floor check, a usage of 500 against a balance of 100 leaves -400 |
| DbQueries.CreateTransactionWithBalanceUpdate | src/lib/db-queries.ts:43-93 | the store method returns nothing and writes nothing for a missing user; otherwise it writes exactly what `ApplyTransaction` describes and returns the row |
| DbQueries.GetExpiringPoints | src/lib/db-queries.ts:130-161 | exactly the unexpired PURCHASE rows expiring in `[now, now + daysAhead days]`, each once, ordered by expiry ascending |
| DbQueries.Skip | src/lib/db-queries.ts:173 | `skip = (page-1)*limit` is non-negative and is one page short of `page*limit` |
| DbQueries.TotalPages | src/lib/db-queries.ts:226 | `ceil(total/limit)` pages cover every row and the last page is not empty |
| DbQueries.NoFiltersMatchAll | src/lib/db-queries.ts:175-191 | with no status, no role and an empty search every user matches |
| TransactionsRoute.BodyData | src/app/api/transactions/route.ts:92-102 | the row data of a POST body keeps its type and amount and has no expiry |
| TransactionsRoute.PostTransaction | src/app/api/transactions/route.ts:58-134 | 401 without a token; 403 for an ADJUSTMENT from a non-admin; 404 for an unknown user; 400 when `balance + amount < 0`; no error writes anything; success writes what the mutator writes, and `newBalance` is the stored, non-negative balance |
| TransactionsRoute.PostKeepsInvariants | src/app/api/transactions/route.ts:84-115 | the POST keeps balances equal to the replay of rows and non-negative |
| TransactionsRoute.PostLetsUserSelfCredit | src/app/api/transactions/route.ts:69-72 | an ordinary user may post a PURCHASE of 1000000 for themselves, and it is credited |
| TransactionsRoute.Post | src/app/api/transactions/route.ts:58-134 | the handler on the store replies and writes as `PostTransaction` says |
| TransactionsRoute.ListRows | src/app/api/transactions/route.ts:33-43 | the listing is the window `skip offset, take limit` of some newest-first ordering of exactly the matching rows, so it holds only matching rows, newest first, and has the size the window leaves; `total` counts every matching row |
| TransactionsRoute.OrderedWindow | src/app/api/transactions/route.ts:33-43 | one window of the matching rows, newest first, holds only matching rows, is newest first, and has the size `skip` and `take` leave of the matching count |
| TransactionsRoute.WindowKeepsOrder | src/app/api/transactions/route.ts:36-39 | a window of a newest-first list is newest first and made of that list's rows |
| TransactionsRoute.ListRowsFirstPageIsComplete | src/app/api/transactions/route.ts:33-43 | a first page at least as large as the total lists every matching row exactly once |
| TransactionsRoute.GetTransactions | src/app/api/transactions/route.ts:7-56 | 401 without a token; 500 for a type name that is no row type; a listing exactly in every other case, the listing of the caller's rows with limit 20 and offset 0 by default |
| TransactionsRoute.GetListsOnlyOwnRows | src/app/api/transactions/route.ts:24-30 | a caller with an id sees only their own rows |
| AdminPointsRoute.AdjustmentDescription | src/app/api/admin/points/route.ts:171 | the description is the prefix `管理者調整: ` followed by the reason |
| AdminPointsRoute.PostAdjustment | src/app/api/admin/points/route.ts:126-202 | 401 without a token; 403 for a non-admin; 400 when user, reason or a non-zero amount is missing; 404 for an unknown user; 400 when `balance + amount < 0`; errors write nothing; success appends one ADJUSTMENT row with `balanceAfter = balanceBefore + amount` and updates only the balance |
| AdminPointsRoute.PostAdjustmentIsMutator | src/app/api/admin/points/route.ts:165-182 | the adjustment writes what the shared mutator writes for an ADJUSTMENT row, and both counters stay as they were |
| AdminPointsRoute.PostAdjustmentKeepsInvariants | src/app/api/admin/points/route.ts:158-182 | the adjustment keeps balances equal to the replay of rows and non-negative |
| AdminPointsRoute.Post | src/app/api/admin/points/route.ts:126-202 | the handler on the store replies and writes as `PostAdjustment` says |
| AdminPointsRoute.OrderField | src/app/api/admin/points/route.ts:47-58 | the four known sort fields map to themselves and anything else to `createdAt` |
| AdminPointsRoute.StatusCondition | src/app/api/admin/points/route.ts:42-44 | the status filter is absent for an empty status and for `all`, and is otherwise the upper-cased status |
| AdminPointsRoute.GetQuery | src/app/api/admin/points/route.ts:7-66 | 401 and 403 as for POST; 500 exactly when an administrator's status condition is no value of the status enum, the one ORM rejection the model has (see Left out for `sortOrder`); otherwise `take`, `skip`, search, status, order field (default balance) and order (default desc) from the parameters |
| AdminPointsRoute.Total | src/app/api/admin/points/route.ts:96 | the count of matching users is at most the number of users |
| AdminPointsRoute.StatusActiveSelectsActive | src/app/api/admin/points/route.ts:42-44 | `status=active` keeps exactly the active users |
| AdminPointsRoute.StatusUpperAllFails | src/app/api/admin/points/route.ts:42-44 | only lower-case `all` is skipped: an administrator's `status=ALL` becomes the unknown status `ALL` and is answered 500 |
| ExpirationRoute.Mark | src/app/api/points/check-expiration/route.ts:58-64 | only the row with the given id is flagged expired at `now`; the others stay as they were |
| ExpirationRoute.ExpireStep | src/app/api/points/check-expiration/route.ts:30-72 | a failing row or a missing user writes nothing; otherwise the balance becomes `max(0, balance - amount)`, an EXPIRATION row with `-amount`, the old balance and the clamped balance is appended, and the lot is marked |
| ExpirationRoute.Found | src/app/api/points/check-expiration/route.ts:12-23 | the sweep selects exactly the unexpired PURCHASE rows whose expiry has passed |
| ExpirationRoute.StepKeepsPending | src/app/api/points/check-expiration/route.ts:27-72 | after one step without failures the remaining found rows are still pending: every row still selectable and owned by a user is one of them |
| ExpirationRoute.SweepClearsPending | src/app/api/points/check-expiration/route.ts:27-101 | a sweep without failures leaves no found row that is still both selectable and owned by a user |
| ExpirationRoute.SweepOfOrphansIsNoop | src/app/api/points/check-expiration/route.ts:37-40 | rows whose user is missing are skipped and nothing is written |
| ExpirationRoute.SweepIsIdempotent | src/app/api/points/check-expiration/route.ts:12-72 | after a first sweep in which no row's transaction threw, a second sweep at the same instant, with any failures, changes nothing |
| ExpirationRoute.FailuresAreSkipped | src/app/api/points/check-expiration/route.ts:27-100 | a row whose write throws is skipped and the later rows are still processed |
| ExpirationRoute.SweepKeepsNonNegative | src/app/api/points/check-expiration/route.ts:43-72 | the sweep never takes a balance below zero |
| ExpirationRoute.ClampBreaksReplay | src/app/api/points/check-expiration/route.ts:43-55 | when the clamp bites, the EXPIRATION row breaks `balanceAfter = balanceBefore + amount` and the replay invariant |
| ExpirationRoute.ExpireOne | src/app/api/points/check-expiration/route.ts:30-72 | the per-row store step writes what `ExpireStep` says |
| ExpirationRoute.EarliestExpiryBounds | src/app/api/points/check-expiration/route.ts:128-130 | absent exactly when the user has no soon-expiring row, otherwise no later than any of their rows' expiry |
| ExpirationRoute.EarliestExpiryIsAttained | src/app/api/points/check-expiration/route.ts:124-138 | the earliest expiry is the expiry of one of the user's rows |
| ExpirationRoute.AppendOne | src/app/api/points/check-expiration/route.ts:124-138 | one more row adds its user, adds its amount to its user's total, and lowers its user's earliest expiry if earlier |
| ExpirationRoute.UserIdsAppend | src/app/api/points/check-expiration/route.ts:124-138 | the users among the rows seen grow by the user of the next row |
| ExpirationRoute.AppendOneAt | src/app/api/points/check-expiration/route.ts:126-130 | for one user, one more row adds its amount if it is theirs and lowers the earliest expiry if strictly earlier |
| ExpirationRoute.GroupedAdd | src/app/api/points/check-expiration/route.ts:131-136 | a first row for a user creates its warning with that amount and expiry |
| ExpirationRoute.GroupedMerge | src/app/api/points/check-expiration/route.ts:126-130 | a further row for a user adds its amount and keeps the earlier expiry |
| ExpirationRoute.MergedEntries | src/app/api/points/check-expiration/route.ts:126-130 | after updating the entry of a row's user, every entry of the map is that user's grouping of the rows seen |
| ExpirationRoute.MergedEntry | src/app/api/points/check-expiration/route.ts:126-130 | one user's entry after the update is that user's grouping including the new row |
| ExpirationRoute.Absorb | src/app/api/points/check-expiration/route.ts:125-137 | one loop step keeps the map equal to the per-user grouping of the rows seen |
| ExpirationRoute.AggregateWarnings | src/app/api/points/check-expiration/route.ts:122-138 | one warning per user, holding the sum of that user's amounts and their earliest expiry |
| ExpirationRoute.Post | src/app/api/points/check-expiration/route.ts:7-162 | the store becomes the sweep of the found rows; `processed` counts the rows found, not those that succeeded; `warned` counts distinct users |
| UserDeleteRoute.RowsWithout | src/app/api/user/delete/route.ts:47-49 | the purge keeps exactly the rows of other users |
| UserDeleteRoute.DeleteAccount | src/app/api/user/delete/route.ts:10-60 | 401 without a token or without a user id; 404 for an unknown user; 400 for an already deleted user; errors write nothing; success removes the user and every row of theirs, and nothing else |
| UserDeleteRoute.AmountSumOfFilter | src/app/api/user/delete/route.ts:47-49 | a filter that keeps all of a user's rows keeps their replay sum |
| UserDeleteRoute.FilterLast | src/app/api/user/delete/route.ts:47-49 | filtering a list with one more row at the end filters the list and then that row |
| UserDeleteRoute.DeleteKeepsConsistent | src/app/api/user/delete/route.ts:45-60 | deletion keeps every other balance equal to the replay of rows, and leaves no row of the deleted user |
| UserDeleteRoute.Delete | src/app/api/user/delete/route.ts:10-72 | the handler on the store replies and writes as `DeleteAccount` says |
| AdminStatsRoute.StartDate | src/app/api/admin/stats/route.ts:23-38 | week is now minus seven days; month is one month ago; year is one year ago; any other range starts at now |
| AdminStatsRoute.PurchaseSumSplit | src/app/api/admin/stats/route.ts:163-169 | the revenue over two disjoint windows adds up to the revenue over their union |
| AdminStatsRoute.PurchaseSumOfFilter | src/app/api/admin/stats/route.ts:118-127 | summing over the pre-filtered period rows is summing over the conjunction of the two tests |
| AdminStatsRoute.BucketsCoverSpan | src/app/api/admin/stats/route.ts:146-169 | the buckets do not overlap: their revenues add up to the revenue from the oldest bucket's start to the end of today's bucket |
| AdminStatsRoute.BucketCount | src/app/api/admin/stats/route.ts:139-145 | the loop runs `min(days/dayStep, 12)` times with a real division: 7 for week, 12 otherwise |
| AdminStatsRoute.GetStats | src/app/api/admin/stats/route.ts:7-200 | 401 without a token; 403 unless role ADMIN and type admin; a result exactly for an ADMIN token of type admin; the total, today and period revenue sums; the growth series oldest first, one point per bucket |
| AdminStatsRoute.RevenueTotalsForKnownRange | src/app/api/admin/stats/route.ts:118-127 | for week, month and year, today's revenue is the revenue since midnight and the period revenue is the revenue since the start date |
| AdminStatsRoute.UnknownRangeCountsFromNow | src/app/api/admin/stats/route.ts:28-38 | for an unknown range only rows from now on count as today's revenue |
| Middleware.ClientIp | src/middleware.ts:42-45 | the first truthy of the three forwarding headers, else `unknown` |
| Middleware.Key | src/middleware.ts:46 | the limiter key is the address, a colon, and the path |
| Middleware.Admit | src/middleware.ts:53-72 | a missing or stale record restarts at count 1 for 60 s; a live record at the limit yields 429 with `Retry-After = ceil((resetTime - now)/1000)` and is unchanged; otherwise the count grows by one; other keys are untouched |
| Middleware.Step | src/middleware.ts:41-46 | only paths under `/api/` are limited |
| Middleware.StepKeepsValid | src/middleware.ts:55-77 | every stored count stays in `1..60`, so the remaining-requests header is never negative |
| Middleware.Pruned | src/middleware.ts:91-98 | cleanup keeps exactly the records with `resetTime >= cleanupTime`, unchanged |
| Middleware.PrunedKeepsValid | src/middleware.ts:91-98 | cleanup keeps the count bound |
| Middleware.PruneIsInvisible | src/middleware.ts:91-98 | a cleanup at or before now changes no later response |
| Middleware.ServeWithinWindow | src/middleware.ts:57-72 | within one window a key is admitted at most up to the limit in total |
| Middleware.AdmitKeepsValid | src/middleware.ts:53-72 | admission keeps the count bound |
| Middleware.FirstMinuteAdmitsAtMostLimit | src/middleware.ts:50-72 | a fresh key is admitted at most 60 times within the first minute |
| Middleware.RateLimiter.constructor | src/middleware.ts:6 | the module-level map starts empty |
| Middleware.RateLimiter.Cleanup | src/middleware.ts:91-98 | the in-place deletion loop leaves `Pruned` of the old map |
| Middleware.RateLimiter.Handle | src/middleware.ts:41-98 | the response is the limiter's answer; the map is updated as `Step` says, then pruned when the cleanup draw fires on a passing request |
| AdminPointsPage.FilteredUsers | src/app/admin/points/page.tsx:140-181 | exactly the users matching the search and status, sorted by the chosen field in the chosen order |
| AdminPointsPage.FilteredUsersPermutation | src/app/admin/points/page.tsx:140-181 | the filtered list is a rearrangement of the matching users, with every occurrence kept |
| AdminPointsPage.PaginatedUsers | src/app/admin/points/page.tsx:184-186 | the current page's run of the sorted filtered list: 10 rows, fewer on the last page, none past the end |
| AdminPointsPage.EveryUserOnItsPage | src/app/admin/points/page.tsx:184-186 | every listed user is shown on one page: user `i` is row `i % 10` of page `i / 10 + 1` |
| AdminPointsPage.FilteredTransactions | src/app/admin/points/page.tsx:189-201 | exactly the transactions whose date starts with the date filter and whose type matches |
| AdminPointsPage.FilteredTransactionsInOrder | src/app/admin/points/page.tsx:189-201 | the history list keeps the passing transactions in their order: entry `k` is the transaction at the `k`-th passing position |
| AdminPointsPage.ParseAmount | src/app/admin/points/page.tsx:209-211 | the integer left after removing every `+` and `-`, negated when the input contains `-` |
| AdminPointsPage.ParseAmountOfSigned | src/app/admin/points/page.tsx:209-211 | `n`, `+n` read as `n`; `-n` and `n-` read as `-n` |
| AdminPointsPage.SignedReadings | src/app/admin/points/page.tsx:209-211 | the four sign placements read as above for any sign-free digit string |
| AdminPointsPage.SignsOfNumber | src/app/admin/points/page.tsx:209-211 | a rendered number carries no sign and reads back as itself |
| AdminPointsPage.Adjusted | src/app/admin/points/page.tsx:214-222 | the adjusted balance is `balance + amount` when that is not negative and 0 when it is; the activity time is `now`; other fields kept |
| AdminPointsPage.AdjustDescription | src/app/admin/points/page.tsx:232 | the adjustment description is the prefix `管理者による残高調整: ` followed by the reason |
| AdminPointsPage.BulkDescription | src/app/admin/points/page.tsx:281 | the bulk description is the prefix `一括調整: ` followed by the reason |
| AdminPointsPage.OpenAdjust | src/app/admin/points/page.tsx:475-478 | the adjust button selects the user and opens the dialog, and changes nothing else |
| AdminPointsPage.AdjustBalance | src/app/admin/points/page.tsx:203-244 | without a selected user, amount and reason nothing changes; otherwise only the selected user is adjusted, one transaction with the unclamped amount and the clamped balance is prepended, and the dialog is reset |
| AdminPointsPage.AdjustBalanceEffect | src/app/admin/points/page.tsx:214-237 | only the selected user changes, balances stay non-negative, the prepended row's balance is the user's new balance, and it differs from `balance + amount` exactly when clamped |
| AdminPointsPage.AdjustUsers | src/app/admin/points/page.tsx:213-221 | the user with the id is adjusted, every other row kept, in place |
| AdminPointsPage.AdjustOne | src/app/admin/points/page.tsx:213-221 | with unique ids, adjusting one user changes that row only and keeps balances non-negative |
| AdminPointsPage.BulkTargets | src/app/admin/points/page.tsx:256 | the targets are exactly the shown users that are active |
| AdminPointsPage.BulkAdjust | src/app/admin/points/page.tsx:246-292 | without amount and reason, or unconfirmed, nothing changes; otherwise each target is adjusted, every other user is kept, and the dialog is reset |
| AdminPointsPage.BulkAdjustHistory | src/app/admin/points/page.tsx:274-286 | a confirmed bulk adjustment prepends one row per target, in list order, and keeps the old rows after them |
| AdminPointsPage.BulkUsers | src/app/admin/points/page.tsx:263-271 | each target is adjusted, every other user kept, in place |
| AdminPointsPage.BulkRows | src/app/admin/points/page.tsx:274-284 | one new row per target, in the targets' order |
| AdminPointsPage.BulkAdjustTouchesTargets | src/app/admin/points/page.tsx:256-271 | only shown active users change and balances stay non-negative |
| AdminPointsPage.BulkAdjustRowCount | src/app/admin/points/page.tsx:274-286 | exactly one row is added per active shown user |
| AdminPointsPage.GoToPage | src/app/admin/points/page.tsx:533 | a page button moves to its page, which is at least 1 |
| AdminPointsPage.PreviousPage | src/app/admin/points/page.tsx:507 | the previous button moves back one page, never below 1, and changes nothing else |
| AdminPointsPage.NextPage | src/app/admin/points/page.tsx:546 | the corrected next button moves forward one page, never past the last and never below 1, and changes nothing else |
| AdminUsersPage.BeforeIsTotalPreorder | src/app/admin/users/page.tsx:193-222 | the comparator for every sort key and order is total and transitive, so the sort is well defined |
| AdminUsersPage.FilteredUsers | src/app/admin/users/page.tsx:179-222 | exactly the users matching the search and status, ordered by the comparator |
| AdminUsersPage.FilteredUsersPermutation | src/app/admin/users/page.tsx:179-222 | the filtered list is a rearrangement of the matching users, with every occurrence kept |
| AdminUsersPage.PaginatedUsers | src/app/admin/users/page.tsx:225-227 | the current page's run of the sorted filtered list: 10 rows, fewer on the last page, none past the end |
| AdminUsersPage.EveryUserOnItsPage | src/app/admin/users/page.tsx:225-227 | every listed user is shown on one page: user `i` is row `i % 10` of page `i / 10 + 1` |
| AdminUsersPage.Find | src/app/admin/users/page.tsx:231 | `find` is absent when no user has the id, otherwise it gives a user with that id |
| AdminUsersPage.FindUnique | src/app/admin/users/page.tsx:231 | with unique ids `find` returns the very user with that id |
| AdminUsersPage.ToggleStatus | src/app/admin/users/page.tsx:229-243 | asking to suspend only selects the user and opens the dialog; activating sets the matching user active and clears the reason and the date, and nobody else changes |
| AdminUsersPage.SuspendUser | src/app/admin/users/page.tsx:245-266 | a blank reason or no selection changes nothing; otherwise only the selected user becomes suspended with the reason and the date, and the dialog is reset |
| AdminUsersPage.SuspendedUsers | src/app/admin/users/page.tsx:251-259 | the user with the id becomes suspended with the reason and time, every other row kept |
| AdminUsersPage.SuspendThenActivateRestores | src/app/admin/users/page.tsx:229-266 | suspending an active user and then activating them gives back the original user list |
| AdminUsersPage.EditUser | src/app/admin/users/page.tsx:268-277 | the edit button selects the user, opens the dialog and fills the form from the row, with a missing phone or note shown as empty; nothing else changes |
| AdminUsersPage.EmptyAsAbsent | src/app/admin/users/page.tsx:291-292 | an empty field is stored as absent, anything else as itself |
| AdminUsersPage.SaveEdit | src/app/admin/users/page.tsx:279-300 | a blank name or email, or no selection, changes nothing; otherwise only the selected user takes the form's contact fields and the dialog closes |
| AdminUsersPage.EditedUsers | src/app/admin/users/page.tsx:285-295 | the user with the id takes the form's fields, every other row kept |
| AdminUsersPage.SaveEditTouchesOnlyContact | src/app/admin/users/page.tsx:285-295 | besides name, email, phone and notes nothing of any user changes, and the saved name is not blank |
| AdminUsersPage.DeleteUser | src/app/admin/users/page.tsx:302-309 | unconfirmed nothing changes; confirmed the list loses the users with that id |
| AdminUsersPage.DeleteUserEffect | src/app/admin/users/page.tsx:307 | deletion keeps exactly the other users, in their order |
| AdminUsersPage.StatusCountsAddUp | src/app/admin/users/page.tsx:352-364 | the active count plus the suspended count is the user count |
| AdminUsersPage.GoToPage | src/app/admin/users/page.tsx:528 | a page button moves to its page, which is at least 1 |
| AdminUsersPage.PreviousPage | src/app/admin/users/page.tsx:502 | the previous button moves back one page, never below 1, and changes nothing else |
| AdminUsersPage.NextPage | src/app/admin/users/page.tsx:541 | the corrected next button moves forward one page, never past the last and never below 1, and changes nothing else |
| ChatPage.StartChat | src/app/chat/page.tsx:115-135 | a balance below the teller's price starts nothing; otherwise the teller is selected, the list closes, the clock starts, and the greeting is the only message |
| ChatPage.PickTeller | src/app/chat/page.tsx:280 | an offline teller is ignored; an online one starts a chat when the balance allows |
| ChatPage.OfflineTellerNeverStarts | src/app/chat/page.tsx:276-280 | the offline teller of the four never starts a chat; the first one does with a balance of 20 |
| ChatPage.SendMessage | src/app/chat/page.tsx:137-161 | blank input or no teller changes nothing; otherwise the user's message and then a typing placeholder are appended, and the input clears |
| ChatPage.ReceiveReply | src/app/chat/page.tsx:164-187 | every typing placeholder is removed, every other message is kept, and the picked reply is appended last |
| ChatPage.ReceiveReplyKeepsOrder | src/app/chat/page.tsx:165-174 | the messages that are not placeholders stay in their order: entry `k` is the message at the `k`-th such position, and the reply follows them |
| ChatPage.ExchangeAppendsTwo | src/app/chat/page.tsx:137-187 | a send followed by its reply adds exactly the user's message and the reply |
| ChatPage.DropPlaceholder | src/app/chat/page.tsx:165 | filtering out placeholders after a placeholder-free list, a message and a placeholder leaves the list and the message |
| ChatPage.Tick | src/app/chat/page.tsx:103-107 | the shown duration is the whole number of seconds since the start |
| ChatPage.Minutes | src/app/chat/page.tsx:194 | the billed minutes are `ceil(seconds/60)` |
| ChatPage.EndChat | src/app/chat/page.tsx:191-207 | without a teller or start time nothing happens; otherwise the cost is minutes times price, and the new balance is `max(0, balance - cost)`, never negative |
| ChatPage.EndChatClampsDialog | src/app/chat/page.tsx:196 | the applied balance is the dialog's balance clamped at zero, and they agree exactly when the dialog's is non-negative |
| ChatPage.DialogCanShowNegative | src/app/chat/page.tsx:400 | after 61 s at 20 per minute with 20 points the dialog shows -20, while 0 is applied |
| ChatPage.FirstMinuteIsCovered | src/app/chat/page.tsx:115-196 | a chat ended within its first minute, after at least a second, costs one minute, which the starting balance covers |
| ChatPage.FirstSecondIsFree | src/app/chat/page.tsx:105 | a chat ended within its first second costs nothing |
| ChatPage.PaddedSeconds | src/app/chat/page.tsx:212 | seconds below 60, padded, are two digits worth the seconds |
| ChatPage.FormatTimeRoundTrip | src/app/chat/page.tsx:209-213 | `formatTime` is `minutes:ss` with `ss` the padded remainder: reading it back gives the seconds |
| LineWebhook.ChannelSecret | src/app/api/webhook/line/route.ts:51 | the messaging secret when set, else the channel secret |
| LineWebhook.SignatureNamesDigest | src/app/api/webhook/line/route.ts:50-63 | a signature that passes is `SHA256=` followed by the digest, so it fixes the digest |
| LineWebhook.Route | src/app/api/webhook/line/route.ts:92-108 | menu or help words first, then points or purchase, then fortune or consult, then balance; any other text gets the main menu |
| LineWebhook.LowerOfUpper | src/app/api/webhook/line/route.ts:93 | lower-casing after upper-casing is lower-casing |
| LineWebhook.RouteIgnoresCase | src/app/api/webhook/line/route.ts:93 | the routing ignores the case of ASCII letters |
| LineWebhook.PointsBeforeBalance | src/app/api/webhook/line/route.ts:96-99 | a text asking for both points and balance gets the points reply |
| LineWebhook.HandleEvent | src/app/api/webhook/line/route.ts:66-89 | non-message events and events without a user or reply token get no reply; text is routed by keyword; any other message gets the text-only notice |
| LineWebhook.RepliesConcat | src/app/api/webhook/line/route.ts:38-40 | handling a batch is handling its parts one after another |
| LineWebhook.RepliesCount | src/app/api/webhook/line/route.ts:38-40 | there are as many replies as answered events |
| LineWebhook.RepliesAnswerEvents | src/app/api/webhook/line/route.ts:38-40 | every reply is the reply of some event of the batch |
| LineWebhook.AnsweredEventsReplied | src/app/api/webhook/line/route.ts:38-40 | the reply of every answered event is sent |
| LineWebhook.RepliesOnePerAnswered | src/app/api/webhook/line/route.ts:38-40 | one reply per answered event, each answering an event of the batch |
| LineWebhook.Post | src/app/api/webhook/line/route.ts:24-47 | a failing signature gives 401 and handles nothing; an unparsable body gives 500; otherwise every event is handled in order and the answer is 200 |

## Left out

- Concurrency: each request is one atomic step. `Promise.all` inside the
  ORM transaction and the unlocked read before it are not modelled.
- Token verification (`jsonwebtoken`), password hashing and the HMAC are
  outside the model. The decoded principal and the digest are inputs.
  A cookie whose token fails verification is not modelled. `jwt.verify`
  then throws inside the handler's `try`. That gives 500 in the
  transactions and admin-points routes, and 401 "Invalid or expired token"
  in the statistics and account-deletion routes. The model has no such
  input: its 401 replies are for a missing token only.
- The 500 replies for thrown database errors are not modelled, except
  for two enum checks: an unknown row type in the transactions GET, and
  an unknown user status in the admin-points GET. A `sortOrder` other than
  `asc` or `desc` is also rejected by the ORM and answered 500 in the admin-points
  GET; the model's `GetQuery` passes it through and answers with the query.
- `DbQueries`: `getUserWithBalance`, `getAggregatedStats` and
  `cleanupExpiredSessions` are not modelled. They are read-only
  projections or session housekeeping outside the ledger.
- `AdminStatsRoute.GetStats`: `totalUsers`, `activeUsers`, the new-user
  counts, `userGrowth`, `totalPoints` and `recentTransactions` are left
  out. They are counts and projections over the user table, not the
  ledger's revenue.
- Calendar arithmetic: month and year subtraction, `toDateString`,
  `toISOString` and `toLocaleString` are parameters (`Clock`,
  `formatDate`, `stamp`). Days are taken as 24 hours.
- `Math.random` and timers: the reply pick and the 1% cleanup draw are
  parameters. `setInterval` is the explicit `Tick` step, and the 2–4 s
  reply delay is the separate `ReceiveReply` step.
- String semantics:
  - string `<` compares code points, where JavaScript compares UTF-16
    code units;
  - `toLowerCase` and `toUpperCase` fold ASCII letters only.
- `parseInt` is modelled only on text that, after leading white space,
  starts with a decimal digit and not with `0x` (`Text.ParsesAsDecimal`).
  The preconditions of `Text.ParseIntOr`, `TransactionsRoute.GetTransactions`
  and `AdminPointsRoute.GetQuery` therefore exclude three forms:
  - text without a leading digit, for which `parseInt` gives NaN;
  - signed text, for which it gives the signed value: `"-5"` gives -5 and
    `"+5"` gives 5. A negative `limit` or `offset` would reach the ORM as
    `take` or `skip`;
  - `0x`-prefixed text, which it reads in base 16: `"0x10"` gives 16.

  `AdminPointsPage.ParseAmount` and the page handlers that use it remove
  the signs first, as the source does. They still require the rest to read
  as decimal, so NaN and `0x` text stay excluded there.
- `alert` and `confirm`: a dialog's answer is the `confirmed` argument,
  and alerts are not modelled.
- Not modelled as display-only:
  - JSX and styling;
  - the totals cards other than the status counts;
  - CSV export;
  - the security headers and Content-Security-Policy;
  - logging.
- `AdminPointsPage.NextPage`: uses the corrected Next button
  `Pagination.NextPage` (see Findings), not the source's. The source's
  button can reach page 0; the model's page state stays at 1 or above.
  The button as written is `Pagination.NextPageAsWritten`, and
  `Pagination.NextPageReachesZero` shows where it goes wrong.
- `AdminUsersPage.NextPage`: the same corrected button as on the points page.
- `AdminPointsPage.PaginatedUsers`: requires `currentPage >= 1`. The
  corrected Next button keeps the page there.
- `AdminUsersPage.PaginatedUsers`: requires `currentPage >= 1`, for the
  same reason.
- `UserDeleteRoute.Delete`: the reply's cookie reset (`auth-token` set to
  '' with `maxAge: 0`) is not modelled. It is a response header and does
  not touch the store.
- `ChatPage.FormatTime`: defined on non-negative seconds only. The
  duration can never be negative, because it counts up from the start
  instant.
- Not modelled in the chat page:
  - the `localStorage` session and the redirects (`router.push`); the
    balance is a field of the chat state;
  - the delivery of chat messages to a server.
- LINE delivery: `replyMessage` and push messages are fetch I/O. A reply
  is recorded in the webhook's outbox by kind. Its message template and
  the environment URLs inside it are not modelled. The expiration route's
  push notifications are not modelled.
- The Stripe routes are not modelled. The Stripe webhook's signature
  check and balance update are commented out, and it has no idempotency.
- The LINE login flows, the Redis wrappers, the health, debug and
  environment probes, and the query-only admin listing routes are not
  modelled.

## Findings

| source | as written | input that shows it | evidently intended | confidence | as-written member | corrected member |
|---|---|---|---|---|---|---|
| src/app/admin/points/page.tsx:546 | `setCurrentPage(Math.min(totalPages, currentPage + 1))`, enabled unless `currentPage === totalPages`. The users page has the same button at src/app/admin/users/page.tsx:541 | a search that matches no user gives `totalPages = 0` on page 1; Next moves to page 0, and clearing the search then shows an empty page with no highlighted button | Next never goes below page 1 | not executed | Pagination.NextPageReachesZero | Pagination.NextPage |
