# Monotrust dashboard: a verified model of the page logic

This project models the client-side logic of the Monotrust investment dashboard (a Next.js app on BNB Smart Chain) and proves properties of that model. Five parts are covered:

- **Binary-matching history** (`mybinary.dfy`). It filters records by id or leg, sorts them by a chosen column with missing values last, cuts them into pages of 15 and computes statistics. Two of the statistics are the left/right match counts and the average reward.
- **Claim history** (`claimhistory.dfy`). Every loaded claim is normalised to `success` with no transaction hash. It has a type/status/id filter and sorts a copy of the list, placing undefined values according to the direction. A header click toggles the direction and returns to page 1. It also computes claim statistics.
- **Referral team** (`referral.dfy`). It has an address filter and two sort modes: "investment" (package sums, largest first) and "recent" (join time, newest first). It shows pages of 10 members. The team statistics are computed when the team loads, and the average is rounded to cents.
- **Package progress grid** (`progresspackage.dfy`). It holds the package table and sends each package to the contract in wei. Each card's cap is 3× the package, and its progress, completion flag and bar width are modelled.
- **Dashboard purchase panel** (`dashboard.dfy`):
   - the tier table, and tier and package selection;
   - leg encoding and decoding;
   - the allowance → approved rule;
   - the referrer lock;
   - the ordered guards of the purchase and claim handlers, and the amounts they send.

Shared modules:

- `paging.dfy` holds the page count, JavaScript `slice` semantics, pages, the five-button page window, the Previous/Next clamps, the "Showing x to y" caption and row serial numbers.
- `sorting.dfy` holds `Array.prototype.sort`. Sorting is stable, so for a consistent comparator the result is the stable insertion sort (`Sorting.InsertionSort`). `Sorting.SortInPlace` is the in-place array form and is proved to produce exactly that.
- `columns.dfy` holds column values and the string/number comparator branches.
- `text.dfy` holds `toLowerCase`, `includes` and `localeCompare`.
- `reduce.dfy` holds `reduce` as `Sum` and `filter(...).length` as `Count`.
- `fetch.dfy` holds the outcome of a backend fetch.
- `wrappers.dfy` holds `Option`.

Each page's step-by-step state is a class whose methods are the event handlers and effects:

- `MyBinary.BinaryHistory`
- `ClaimHistory.ClaimHistoryPage`
- `Referral.ReferralPage`
- `Dashboard.PurchaseForm`

The pages' derived values (rows, total pages, the current page's rows) are functions of that state.

Modelling choices:

- Strings are sequences of Unicode scalar values, and `localeCompare` is lexicographic code-point order, which is consistent as ECMAScript requires.
- `toLowerCase` lowercases ASCII letters only.
- Amounts on the history pages are integers.
- Contract values are exact wei (`nat`), and token amounts derived from them are `real`.
- The binary comparator above orders missing values the intended way. The as-written version is kept separately; see "## Findings".

## Model

| member | source | states |
|---|---|---|
| Text.Lower | app/mybinary/page.tsx:69 | lowercasing keeps the length and maps each character independently |
| Text.LowerIdempotent | app/mybinary/page.tsx:69 | lowercasing twice is lowercasing once |
| Text.IncludesIsOccurrence | app/mybinary/page.tsx:73 | `includes` holds exactly when the term occurs at some index |
| Text.IncludesEmpty | app/mybinary/page.tsx:73 | every string includes the empty string |
| Text.IncludesInEmpty | app/mybinary/page.tsx:73 | the empty string includes only the empty string |
| Text.LexCompare | app/mybinary/page.tsx:93-94 | `localeCompare` returns -1, 0 or 1 |
| Text.LexAntisymmetric | app/mybinary/page.tsx:93-94 | swapping the arguments negates `localeCompare` |
| Text.LexZeroIffEqual | app/mybinary/page.tsx:93-94 | `localeCompare` is 0 exactly for equal strings |
| Text.LexTransitive | app/mybinary/page.tsx:93-94 | `localeCompare(a, b) <= 0` is transitive |
| Reduce.Count | app/mybinary/page.tsx:121 | a filtered length is at most the list's length |
| Reduce.SumAppend | app/referral/page.tsx:61-64 | the sum of a concatenation is the sum of the parts |
| Reduce.SumPermutation | app/referral/page.tsx:61-64 | a sum does not depend on the order of the list |
| Reduce.CountExclusive | app/mybinary/page.tsx:121-122 | two predicates that never hold together count at most the list's length in total |
| Reduce.CountAll | app/claimhistory/page.tsx:115 | a predicate that holds of every element counts all of them |
| Reduce.CountNone | app/claimhistory/page.tsx:116 | a predicate that holds of no element counts none |
| Sorting.InsertPermutes | app/mybinary/page.tsx:83 | inserting adds exactly the one element |
| Sorting.InsertionSortPermutes | app/mybinary/page.tsx:83 | the sorted list is a permutation of the input |
| Sorting.InsertKeepsSorted | app/mybinary/page.tsx:83 | under a consistent comparator, inserting into a sorted list keeps it sorted |
| Sorting.InsertionSortSorted | app/mybinary/page.tsx:83 | under a consistent comparator the result is sorted for every pair of positions |
| Sorting.InsertionSortAllEqual | app/claimhistory/page.tsx:83 | a comparator that answers 0 for every pair leaves the order unchanged |
| Sorting.InsertAtEnd | app/mybinary/page.tsx:83 | an element that may follow every element goes last |
| Sorting.InsertPosition | app/mybinary/page.tsx:83 | insertion lands after the leading elements that may precede the new one and before the first that may not |
| Sorting.SortInPlace | app/mybinary/page.tsx:83 | sorting the array in place leaves it equal to the stable sort of its old contents |
| Sorting.SinkDown | app/mybinary/page.tsx:83 | one pass moves the next element left past the elements that may not precede it, and leaves the rest alone |
| Sorting.SinkDownInserts | app/mybinary/page.tsx:83 | that pass performs exactly the insertion step of the stable sort |
| Sorting.PrefixPrecedes | app/mybinary/page.tsx:83 | in a sorted list, every element before one that may precede x may precede x too |
| Fetch.ItemsOr | app/mybinary/page.tsx:50 | a non-array body or a failure yields the empty list, and an array yields itself |
| Columns.StringField | app/mybinary/page.tsx:84-85 | a string field reads as undefined exactly when missing, and never as a number |
| Columns.NumberField | app/mybinary/page.tsx:84-85 | a number field reads as undefined exactly when missing, and never as a string |
| Columns.ComparePresentAntisymmetric | app/mybinary/page.tsx:91-99 | the string/number branches are antisymmetric; `desc` is `asc` with the arguments swapped |
| Columns.ComparePresentTransitive | app/mybinary/page.tsx:91-99 | within one column the string/number branches are transitive |
| Paging.TotalPages | app/mybinary/page.tsx:113 | `ceil(n / size)`: the pages hold all rows, and one page fewer would not |
| Paging.NoPagesIffEmpty | app/mybinary/page.tsx:113 | there are no pages exactly when there are no rows |
| Paging.SliceIndex | app/mybinary/page.tsx:115 | a `slice` bound is clipped into the list and an in-range bound is kept |
| Paging.SliceWindow | app/mybinary/page.tsx:115 | `slice(start, start + size)` holds the existing rows from `start`, at most `size` of them |
| Paging.StartIndexFacts | app/mybinary/page.tsx:114 | pages from 1 start at a non-negative row, one page size apart |
| Paging.PageContents | app/mybinary/page.tsx:114-115 | page p holds exactly the rows at [(p-1)·size, (p-1)·size + size) that exist, and so at most `size` |
| Paging.PagesUpToIsPrefix | app/mybinary/page.tsx:113-115 | pages 1..k concatenated are the first k·size rows |
| Paging.PagesConcatenate | app/mybinary/page.tsx:113-115 | pages 1..totalPages concatenated reproduce the sorted list |
| Paging.PagesNonEmpty | app/mybinary/page.tsx:113-115 | every page from 1 to totalPages shows a row |
| Paging.PageWindow | app/mybinary/page.tsx:422-432 | the window has min(5, totalPages) buttons |
| Paging.WindowLaws | app/mybinary/page.tsx:422-432 | the window's page numbers are consecutive and lie in [1, totalPages]; it contains the current page when that page exists |
| Paging.Previous | app/mybinary/page.tsx:189-191 | Previous goes back one page, never below 1 |
| Paging.Next | app/mybinary/page.tsx:193-195 | Next goes forward one page, never beyond totalPages |
| Paging.ClampStaysInRange | app/mybinary/page.tsx:189-195 | from an existing page, Previous and Next reach an existing page |
| Paging.CaptionCountsPage | app/mybinary/page.tsx:409 | on an existing page the caption's "x to y" covers exactly the rows shown, within [1, n] |
| Paging.SerialNumberIsPosition | app/mybinary/page.tsx:339 | a row's serial number is its 1-based position in the whole sorted list |
| MyBinary.Filter | app/mybinary/page.tsx:65-80 | a record is kept iff it is an object whose lowercased id or leg contains the lowercased term, as often as it occurs |
| MyBinary.FilterEmptyTermKeepsObjects | app/mybinary/page.tsx:65-80 | an empty term keeps every object and still drops non-objects |
| MyBinary.FilterAppend | app/mybinary/page.tsx:65-80 | filtering a concatenation filters each part |
| MyBinary.Value | app/mybinary/page.tsx:84-85 | numeric columns never read as strings, and string columns never as numbers |
| MyBinary.Compare | app/mybinary/page.tsx:87-99 | two missing values are equal, one missing value sorts after a present one, and otherwise the branches as written apply |
| MyBinary.AsWrittenNotConsistent | app/mybinary/page.tsx:88-89 | as written, two records missing the key each compare greater than the other, so the relation is not total |
| MyBinary.AsWrittenCounterexample | app/mybinary/page.tsx:88-89 | a record without a leg, sorted by leg, compares greater than itself |
| MyBinary.ComparePreorderAt | app/mybinary/page.tsx:87-99 | the intended comparator is total and transitive on values of one column |
| MyBinary.LeTotalPreorder | app/mybinary/page.tsx:83-109 | for every key and direction the intended comparator is consistent |
| MyBinary.SortOrder | app/mybinary/page.tsx:83-99 | the sorted list is a permutation of the filtered one, missing values come last, and present values are ascending or descending as chosen |
| MyBinary.ToggleDirection | app/mybinary/page.tsx:182-187 | `asc` exactly when the same key was sorted `desc` |
| MyBinary.ToggleFlips | app/mybinary/page.tsx:182-187 | a second click on the same column flips the direction |
| MyBinary.Total | app/mybinary/page.tsx:119-120 | the total is the sum of the field when every record has one, and not a number otherwise |
| MyBinary.ComputeStats | app/mybinary/page.tsx:118-132 | totalMatches is the data length; totalAmount and totalReward are the sums of their fields (not a number when one is missing); leftMatches and rightMatches count the `left` and `right` legs, together at most the total; average is '0' iff there is no data, else total reward / count |
| MyBinary.TotalsIgnoreOrder | app/mybinary/page.tsx:119-120 | the totals do not depend on the order of the data |
| MyBinary.AllPresentTransfers | app/mybinary/page.tsx:119-120 | reordering keeps every record's amount present |
| MyBinary.BinaryHistory.constructor | app/mybinary/page.tsx:23-33 | starts empty, loading, on page 1, sorted by date descending |
| MyBinary.BinaryHistory.Load | app/mybinary/page.tsx:35-60 | without a wallet it only stops loading; otherwise the data is the array (or empty) and a failure's message is kept |
| MyBinary.BinaryHistory.SetSearchTerm | app/mybinary/page.tsx:289-292 | stores the term and resets to page 1 |
| MyBinary.BinaryHistory.HandleSort | app/mybinary/page.tsx:182-187 | sets the key; `asc` iff that key was already `desc`; nothing else changes |
| MyBinary.BinaryHistory.PreviousPage | app/mybinary/page.tsx:189-191 | the page becomes Previous of the old page |
| MyBinary.BinaryHistory.NextPage | app/mybinary/page.tsx:193-195 | the page becomes Next of the old page in the old page count |
| MyBinary.BinaryHistory.GoToPage | app/mybinary/page.tsx:437 | a window button sets the page to an existing page |
| MyBinary.BinaryHistory.SortedRows | app/mybinary/page.tsx:83-109 | the in-place sort of the filtered records gives the table's rows, a permutation of the filtered records |
| ClaimHistory.Normalize | app/claimhistory/page.tsx:46-52 | `null` throws; any other element gets status success and no hash and keeps its other fields, a non-object spreading to no fields |
| ClaimHistory.Formatted | app/claimhistory/page.tsx:45-52 | the map throws the TypeError iff some element is `null`, and otherwise normalises the array element by element |
| ClaimHistory.Fetched | app/claimhistory/page.tsx:38-58 | a failed request throws its message, a non-array body gives [], and an array is mapped |
| ClaimHistory.LoadedRows | app/claimhistory/page.tsx:55-58 | the stored data is the mapped records, or [] when the `try` block threw |
| ClaimHistory.NullFreeArrayLoads | app/claimhistory/page.tsx:45-55 | an array without `null` loads one record per element |
| ClaimHistory.NullElementEmptiesPage | app/claimhistory/page.tsx:45-58 | one `null` element empties the page and reports the TypeError |
| ClaimHistory.FormattedAllSuccessful | app/claimhistory/page.tsx:45-53 | every loaded record is `success` without a transaction hash |
| ClaimHistory.Filter | app/claimhistory/page.tsx:75-80 | a record is kept iff its type, status or id, lowercased, contains the term, as often as it occurs |
| ClaimHistory.BlankNeverMatches | app/claimhistory/page.tsx:75-80 | a record without type, status and id never matches |
| ClaimHistory.FilterKeepsLoaded | app/claimhistory/page.tsx:45-80 | a term occurring in "success" keeps every loaded record |
| ClaimHistory.KeepAll | app/claimhistory/page.tsx:75-80 | when every record matches, the filter returns the list unchanged |
| ClaimHistory.EmptyTermKeepsLoaded | app/claimhistory/page.tsx:45-80 | the empty term keeps every loaded record |
| ClaimHistory.Value | app/claimhistory/page.tsx:85-86 | numeric columns never read as strings, and string columns never as numbers |
| ClaimHistory.Compare | app/claimhistory/page.tsx:89-105 | two undefined values are equal; one undefined value goes last when `asc` and first when `desc` |
| ClaimHistory.DescendingReverses | app/claimhistory/page.tsx:89-105 | `desc` is `asc` with the arguments swapped |
| ClaimHistory.AscendingPreorderAt | app/claimhistory/page.tsx:89-105 | the ascending comparator is total and transitive on one column |
| ClaimHistory.LeTotalPreorder | app/claimhistory/page.tsx:82-106 | every sort configuration gives a consistent comparator |
| ClaimHistory.SortedCopyOrder | app/claimhistory/page.tsx:82-106 | the copy is a permutation of the filtered list; undefined values are placed by direction and present values ordered by it |
| ClaimHistory.NoKeyKeepsOrder | app/claimhistory/page.tsx:83 | with no key the copy keeps the filtered order |
| ClaimHistory.ToggleDirection | app/claimhistory/page.tsx:67-71 | `desc` exactly when the same key was sorted `asc` |
| ClaimHistory.ToggleFlips | app/claimhistory/page.tsx:67-71 | a second click on the same column flips the direction |
| ClaimHistory.ComputeStats | app/claimhistory/page.tsx:112-117 | successful + pending ≤ total, and totalClaimed sums the amounts with missing ones as 0 |
| ClaimHistory.LoadedStats | app/claimhistory/page.tsx:112-117 | after a load every stored claim is successful and none is pending |
| ClaimHistory.TotalClaimedCountsPresent | app/claimhistory/page.tsx:114 | a claim without an amount adds nothing to totalClaimed |
| ClaimHistory.ClaimHistoryPage.constructor | app/claimhistory/page.tsx:26-32 | starts empty, loading, on page 1, sorted by date descending |
| ClaimHistory.ClaimHistoryPage.Load | app/claimhistory/page.tsx:34-65 | without a wallet nothing changes; otherwise loading ends with the loaded records and no error, or, when the request failed or an element was `null`, with [] and the thrown message |
| ClaimHistory.ClaimHistoryPage.SetSearchTerm | app/claimhistory/page.tsx:189-192 | stores the term and resets to page 1 |
| ClaimHistory.ClaimHistoryPage.HandleSort | app/claimhistory/page.tsx:67-73 | sets the key; `desc` iff that key was `asc`; always back to page 1 |
| ClaimHistory.ClaimHistoryPage.PreviousPage | app/claimhistory/page.tsx:296 | the page becomes Previous of the old page |
| ClaimHistory.ClaimHistoryPage.NextPage | app/claimhistory/page.tsx:333 | the page becomes Next of the old page in the old page count |
| ClaimHistory.ClaimHistoryPage.GoToPage | app/claimhistory/page.tsx:319 | a window button sets the page to an existing page |
| Referral.RoundToCents | app/referral/page.tsx:70 | `Math.round(x * 100) / 100` is a whole number of cents within half a cent of x (halves upward) |
| Referral.RoundToCentsUnique | app/referral/page.tsx:70 | that contract determines the rounding: any whole number of cents that close to x is the rounded value |
| Referral.TeamStatsOf | app/referral/page.tsx:61-71 | totalMembers is the team size, totalInvested the sum of package sums, and the average is 0 for no team, else a whole number of cents within half a cent of the mean, which by Referral.RoundToCentsUnique is the mean rounded to cents |
| Referral.TeamStatsIgnoreOrder | app/referral/page.tsx:61-68 | the statistics do not depend on the team's order |
| Referral.Filter | app/referral/page.tsx:86-88 | a member is kept iff the lowercased address contains the lowercased term, as often as it occurs |
| Referral.FilterEmptyTerm | app/referral/page.tsx:86-88 | the empty term keeps the whole team in order |
| Referral.LeTotalPreorder | app/referral/page.tsx:90-100 | both sort modes give consistent comparators |
| Referral.SortOrder | app/referral/page.tsx:90-100 | the sorted list is a permutation of the filtered one, non-increasing by investment or by join time |
| Referral.RowsInvestAsFiltered | app/referral/page.tsx:284-287 | the rows' investments over all pages add up to the filtered team's investment |
| Referral.ReferralPage.constructor | app/referral/page.tsx:27-40 | starts with no team, zero statistics, the "recent" mode and page 1 |
| Referral.ReferralPage.PageRows | app/referral/page.tsx:106-110 | `slice((p-1)·10, p·10)` is the shared page p |
| Referral.ReferralPage.ShowingTo | app/referral/page.tsx:413-414 | the caption's upper bound is min(p·10, n) |
| Referral.ReferralPage.Load | app/referral/page.tsx:42-82 | without a wallet nothing changes; a failure keeps the old team and statistics; a success stores the team and its statistics |
| Referral.ReferralPage.SetSearchTerm | app/referral/page.tsx:202-205 | stores the term and resets to page 1 |
| Referral.ReferralPage.SetSortBy | app/referral/page.tsx:211-228 | sets the mode and resets to page 1 |
| Referral.ReferralPage.PreviousPage | app/referral/page.tsx:419 | the page becomes Previous of the old page |
| Referral.ReferralPage.NextPage | app/referral/page.tsx:451 | the page becomes Next of the old page in the old page count |
| Referral.ReferralPage.GoToPage | app/referral/page.tsx:440 | a window button sets the page to an existing page |
| Referral.ReferralPage.SortedMembers | app/referral/page.tsx:90-102 | the in-place sort of the filtered members gives the table's rows, a permutation of them |
| Referral.RowsInvestTotal | app/referral/page.tsx:61-68 | with no search term, the rows of all pages invest the stored totalInvested |
| ProgressPackage.PackagesTable | components/progresspackage.tsx:9-27 | the packages rise strictly, are positive, and exactly they have icons |
| ProgressPackage.StrictlyIncreasing | components/progresspackage.tsx:9 | rising at each step is rising at every pair |
| ProgressPackage.PackageWei | components/progresspackage.tsx:44 | the amount is pkg · 10^18: dividing by 10^18 gives pkg back with no remainder |
| ProgressPackage.PackageWeiInjective | components/progresspackage.tsx:44 | different packages are queried with different amounts |
| ProgressPackage.View | components/progresspackage.tsx:56-96 | total, claimed and pending are the read's wei in tokens; cap = 3·pkg, earned = claimed + pending, completed iff earned ≥ cap, progress = earned/cap·100 (0 for a zero cap), bar width = min(progress, 100) |
| ProgressPackage.CompletedInWei | components/progresspackage.tsx:56-70 | a card is completed exactly when claimed + pending wei reach 3 · pkg · 10^18 |
| ProgressPackage.BarWidthLaws | components/progresspackage.tsx:96 | the bar width lies in [0, 100], and for a positive package it is 100 exactly when completed |
| ProgressPackage.PackageCard | components/progresspackage.tsx:48-56 | loading, failure and data each give their own card |
| ProgressPackage.ProgressGrid | components/progresspackage.tsx:108-121 | without a wallet there is a prompt; otherwise one card per package in table order |
| ProgressPackage.LoadedCardsHaveIcons | components/progresspackage.tsx:81 | every loaded card shows an icon |
| Dashboard.TiersNonEmpty | app/dashboard/page.tsx:57-93 | every tier offers a package |
| Dashboard.TiersCoverPackages | app/dashboard/page.tsx:57-93 | the tiers' packages, in order, are the progress grid's table, so they rise strictly within and across tiers |
| Dashboard.LegValue | app/dashboard/page.tsx:391 | left ↦ 0 and right ↦ 1 |
| Dashboard.LegFromChain | app/dashboard/page.tsx:207 | 0 ↦ left, anything else ↦ right |
| Dashboard.LegRoundTrip | app/dashboard/page.tsx:207 | decode(encode(l)) = l, and encode(decode(v)) is 0 or 1 |
| Dashboard.ApprovalWei | app/dashboard/page.tsx:310 | the approval is 1000 · 10^18 |
| Dashboard.AllowanceThreshold | app/dashboard/page.tsx:243-248 | the allowance is enough iff it is at least 1000 · 10^18 |
| Dashboard.TokensOrZero | app/dashboard/page.tsx:174-191 | an unread or zero value shows 0, anything else its token amount |
| Dashboard.TotalClaimedAddsWei | app/dashboard/page.tsx:194 | total claimed = direct claimed + additional claimed |
| Dashboard.PurchaseCheck | app/dashboard/page.tsx:372-399 | the guards in order (wallet, referrer, approval); a purchase is sent only when all pass, for pkg · 10^18 with leg 0 or 1 |
| Dashboard.ClaimPendingCheck | app/dashboard/page.tsx:321-329 | the ROI claim is rejected without a wallet or when the pending income is not positive |
| Dashboard.ClaimDirectCheck | app/dashboard/page.tsx:448-452 | the direct claim needs only a wallet |
| Dashboard.LockedReferrerStaysCleared | app/dashboard/page.tsx:372-438 | for a locked referrer, a successful recorded purchase clears it, later typing is ignored, and the next purchase stops at "no referrer" |
| Dashboard.PurchaseForm.constructor | app/dashboard/page.tsx:98-115 | tier 0 with package 5, the left leg, unlocked, not approved |
| Dashboard.PurchaseForm.SelectTier | app/dashboard/page.tsx:646-649 | selects tier i with its first package, keeping the invariant that the package belongs to the tier |
| Dashboard.PurchaseForm.ClickPackage | app/dashboard/page.tsx:687-692 | selects a package of the current tier unless it is purchased; the invariant holds |
| Dashboard.PurchaseForm.ChooseLeg | app/dashboard/page.tsx:729 | sets the leg |
| Dashboard.PurchaseForm.EditReferrer | app/dashboard/page.tsx:803 | typing changes the referrer only while it is unlocked |
| Dashboard.PurchaseForm.ApplyUserDetails | app/dashboard/page.tsx:200-217 | a non-zero on-chain referrer fills the field, locks it and sets the leg |
| Dashboard.PurchaseForm.ApplyAllowance | app/dashboard/page.tsx:243-248 | approved becomes old-approved or allowance ≥ 1000 · 10^18, so it never resets |
| Dashboard.PurchaseForm.Approve | app/dashboard/page.tsx:301-319 | without a wallet nothing is sent; otherwise approve is sent for 1000 · 10^18 |
| Dashboard.PurchaseForm.OnTxSuccess | app/dashboard/page.tsx:251-258 | any successful transaction sets approved and ends approving |
| Dashboard.PurchaseForm.OnTxError | app/dashboard/page.tsx:286-291 | an error ends approving and leaves approved as it was |
| Dashboard.PurchaseForm.PurchasePackage | app/dashboard/page.tsx:372-389 | the outcome is the ordered guard check, and isPurchasing is set only when it sends |
| Dashboard.PurchaseForm.OnPurchaseSettled | app/dashboard/page.tsx:404-438 | isPurchasing ends; the referrer is cleared only after a success the backend records |

## Left out

- Network requests, wallet connection, toasts, clipboard and timers are left out. Each fetch or contract read enters its handler as a parameter, and the requests a handler sends are returned as values.
- The binary-income balance effect and `handleClaimBinary` (app/mybinary/page.tsx:135-180) are left out: they are a POST and a display of a fetched number, with no logic of their own.
- The team-count effects and the mocked stat cards (app/dashboard/page.tsx:106-109, 117-123, 219-240, 260-284) are left out: they only copy fetched counts.
- The backend POSTs after an on-chain claim (app/dashboard/page.tsx:339-360, 462-480) are left out: they send the amounts the claim checks return.
- Button `disabled` states are left out: each handler is modelled with its own guards.
- Date formatting, `toLocaleString` and `toFixed` are left out. The join time is kept as its number of seconds.
- Floating point is left out: amounts are exact integers or reals, so `Number(x) / 1e18` has no rounding error in the model.
- Field values of the wrong JSON type, and JSON `null` in a field, are left out: each field holds the type its interface declares, or is missing.
- MyBinary.Compare: the `Date` branch (app/mybinary/page.tsx:102-106) is not modelled. It is reached only for a date column holding a value other than a string, which the record type excludes.
- MyBinary.Total: a non-numeric amount makes the source's sum `NaN` or a concatenated string. The model gives `None` for both.
- MyBinary.ComputeStats: a `null` entry makes the source throw at `record.purchasedAmount` in the first reduce (app/mybinary/page.tsx:118), so no statistic is computed and the page fails to render. The model instead gives both totals as not a number and counts the entry as neither leg.
- Referral.ReferralPage.Load: a response body that is not an array is excluded by its precondition. The source stores such a body, and the next render throws.
- Referral.Member: `joinTime` is `new Date(joinDate).getTime()` taken as an integer. Date parsing, and a `NaN` from an invalid date, are not modelled.
- Text.Lower: only ASCII `A`–`Z` are lowercased. Unicode case mapping is not modelled.
- Text.LexCompare: `localeCompare` is code-point order over Unicode scalar values. Locale collation is not modelled, and neither is the UTF-16 code-unit order JavaScript uses for its own `<`; the two differ only when a character above U+FFFF meets one in U+E000–U+FFFF.

## Findings

| source | as written | input that shows it | evidently intended | confidence | as-written member | corrected member |
|---|---|---|---|---|---|---|
| app/mybinary/page.tsx:88-89 | `if (aVal == null) return 1` runs before `bVal` is checked, so two records that both lack the sort value each compare greater than the other, and a record compares greater than itself. A comparator like that is not consistent in the ECMAScript sense, so the order the sort returns is implementation-defined. | two records with no `leg`, sorted by `leg` | two missing values compare equal (0); a single missing value sorts last, as the claim-history page does at 89-91 | not executed | MyBinary.AsWrittenNotConsistent | MyBinary.LeTotalPreorder |
